/**
 * The offline identity and trade-journal store of assets/js/app.js: users,
 * the single session, trade records and the change messages broadcast after
 * every write. `localStorage` is the durable store, `sessionStorage` the
 * volatile one; the SHA-256 digest, `genId()` and `Date.now()` come in from
 * outside.
 */
module EdgeMetrics {
  import opened Wrappers
  import opened Json
  import opened Arrays

  const USERS_KEY: string := "edgemetrics_users_v1"
  const TRADES_KEY: string := "edgemetrics_trades_v1"
  const SESSION_KEY: string := "edgemetrics_session_v1"
  const DEFAULT_PLAN: string := "starter"

  /**
   * What an operation throws: `EmailExists`, `UserNotFound`, `InvalidCredentials`
   * and `NotFound` are the `Error`s app.js raises with the messages "Email already
   * exists", "User not found", "Invalid credentials" and "Not found"; `TypeError`
   * is the engine's, on storage that does not hold an array of records.
   */
  datatype Error = EmailExists | UserNotFound | InvalidCredentials | NotFound | TypeError

  /**
   * A broadcast message: its `type` string and the id it carries (`id`, or
   * `userId` for session changes); `None` where that field is undefined.
   */
  datatype Message = Message(kind: string, subject: Option<Value>)

  /** The users array as `jsonGet(USERS_KEY, [])` reads it. */
  function UsersIn(durable: Storage): Value {
    Read(durable, USERS_KEY, Arr([]))
  }

  /** `getTrades()`: the trades array as `jsonGet(TRADES_KEY, [])` reads it. */
  function TradesIn(durable: Storage): (v: Value)
    ensures !(TRADES_KEY in durable && durable[TRADES_KEY].Encoded?) ==> v == Arr([])
    ensures TRADES_KEY in durable && durable[TRADES_KEY].Encoded? ==> v == durable[TRADES_KEY].value
  {
    Read(durable, TRADES_KEY, Arr([]))
  }

  /** The record `registerUser` appends. */
  function NewUser(id: string, email: string, digest: string, name: string, plan: Value, now: int): Record {
    map["id" := Str(id), "email" := Str(email), "hash" := Str(digest), "name" := Str(name),
        "plan" := plan, "createdAt" := Num(now as real)]
  }

  /**
   * The session `loginUser` stores, as JSON.stringify leaves it: `{userId: user.id,
   * createdAt: now}`, where an undefined `userId` is dropped.
   */
  function SessionFor(user: Record, now: int): (s: Record)
    ensures Lookup(s, "userId") == Lookup(user, "id")
    ensures s.Keys <= {"userId", "createdAt"} && "createdAt" in s && s["createdAt"] == Num(now as real)
  {
    var stamp := map["createdAt" := Num(now as real)];
    if "id" in user then stamp["userId" := user["id"]] else stamp
  }

  /**
   * `Object.assign({id, createdAt: now}, trade)`: every field of the caller's
   * record wins, `id` and `createdAt` included.
   */
  function Stamped(trade: Record, id: string, now: int): (t: Record)
    ensures t.Keys == trade.Keys + {"id", "createdAt"}
    ensures forall k :: k in trade ==> t[k] == trade[k]
    ensures "id" !in trade ==> t["id"] == Str(id)
    ensures "createdAt" !in trade ==> t["createdAt"] == Num(now as real)
  {
    map["id" := Str(id), "createdAt" := Num(now as real)] + trade
  }

  /**
   * `Object.assign(record, updates, {updatedAt: now})`: the patch wins over the
   * record and the update stamp wins over both.
   */
  function Patched(record: Record, updates: Record, now: int): (t: Record)
    ensures t.Keys == record.Keys + updates.Keys + {"updatedAt"}
    ensures t["updatedAt"] == Num(now as real)
    ensures forall k :: k in updates && k != "updatedAt" ==> t[k] == updates[k]
    ensures forall k :: k in record && k !in updates && k != "updatedAt" ==> t[k] == record[k]
  {
    record + updates + map["updatedAt" := Num(now as real)]
  }

  /** The user id the durable session names, when `!s || !s.userId` lets `currentUser` go on. */
  function SessionUserId(durable: Storage): (uid: Option<Value>)
    ensures uid.Some? ==> Truthy(uid.value)
    ensures uid.Some? <==>
      var s := Read(durable, SESSION_KEY, Null);
      s.Obj? && "userId" in s.fields && Truthy(s.fields["userId"])
    ensures uid.Some? ==> uid.value == Read(durable, SESSION_KEY, Null).fields["userId"]
  {
    var s := Read(durable, SESSION_KEY, Null);
    if Truthy(s) && s.Obj? && "userId" in s.fields && Truthy(s.fields["userId"])
    then Some(s.fields["userId"])
    else None
  }

  /**
   * `currentUser()`: the first user whose `id` is the session's `userId`, `null`
   * when there is no session or no such user, a TypeError when the users
   * array cannot be searched.
   */
  function CurrentUserIn(durable: Storage): (r: Result<Option<Value>, Error>)
    ensures SessionUserId(durable).None? ==> r == Ok(None)
    ensures r.Err? ==> r.error == TypeError
    ensures r.Ok? && r.value.Some? ==>
      && SessionUserId(durable).Some?
      && UsersIn(durable).Arr? && r.value.value in UsersIn(durable).items
      && Matches(r.value.value, "id", SessionUserId(durable).value)
    ensures (SessionUserId(durable).Some? && UsersIn(durable).Arr?
             && Passes(UsersIn(durable).items, "id", SessionUserId(durable).value)) ==> r == Ok(None)
    ensures (SessionUserId(durable).Some? && UsersIn(durable).Arr?
             && Find(UsersIn(durable).items, "id", SessionUserId(durable).value).Found?) ==>
      r == Ok(Some(UsersIn(durable).items[Find(UsersIn(durable).items, "id", SessionUserId(durable).value).index]))
    ensures r.Err? <==>
      SessionUserId(durable).Some? && FindIn(UsersIn(durable), "id", SessionUserId(durable).value).Throws?
  {
    match SessionUserId(durable)
    case None => Ok(None)
    case Some(uid) =>
      var users := UsersIn(durable);
      match FindIn(users, "id", uid)
      case Found(i) => Ok(Some(users.items[i]))
      case Missing => Ok(None)
      case Throws => Err(TypeError)
  }

  /** The browser state app.js works on, and the messages it has broadcast. */
  class Store {
    /** localStorage */
    var durable: Storage
    /** sessionStorage */
    var volatile: Storage
    /** every message `broadcast` has sent, oldest first */
    var log: seq<Message>
    /** the handlers `subscribe` has registered and not yet removed */
    var subscribers: set<nat>
    /** `sha256Hex`, treated as an uninterpreted digest */
    const hash: string -> string

    constructor (hash: string -> string, durable: Storage, volatile: Storage)
      ensures this.hash == hash && this.durable == durable && this.volatile == volatile
      ensures log == [] && subscribers == {}
    {
      this.hash := hash;
      this.durable := durable;
      this.volatile := volatile;
      log := [];
      subscribers := {};
    }

    /** `jsonGet(key, fallback)` */
    function JsonGet(key: string, fallback: Value): Value
      reads this
    {
      Read(durable, key, fallback)
    }

    /** `jsonSet(key, v)` */
    method JsonSet(key: string, v: Value)
      modifies this`durable
      ensures durable == Write(old(durable), key, v)
    {
      durable := durable[key := Encoded(v)];
    }

    /** `subscribe(fn)` */
    method Subscribe(handler: nat)
      modifies this`subscribers
      ensures subscribers == old(subscribers) + {handler}
    {
      subscribers := subscribers + {handler};
    }

    /** The function `subscribe` returns: `subscribers.delete(fn)`. */
    method Unsubscribe(handler: nat) returns (removed: bool)
      modifies this`subscribers
      ensures removed <==> handler in old(subscribers)
      ensures subscribers == old(subscribers) - {handler}
    {
      removed := handler in subscribers;
      subscribers := subscribers - {handler};
    }

    /** `broadcast(msg)`: every subscriber in this tab receives `msg` after the earlier ones. */
    method Broadcast(msg: Message)
      modifies this`log
      ensures log == old(log) + [msg]
    {
      log := log + [msg];
    }

    /**
     * `registerUser({email, password, name, plan = 'starter'})`; `plan` is `None`
     * when the caller omits it or passes `undefined`, and any other value, `null` included,
     * is stored as given.
     */
    method RegisterUser(email: string, password: string, name: string, plan: Option<Value>, id: string, now: int)
      returns (r: Result<string, Error>)
      modifies this`durable, this`log
      ensures var scan := FindIn(old(UsersIn(durable)), "email", Str(email));
        && (scan.Throws? ==> r == Err(TypeError))
        && (scan.Found? ==> r == Err(EmailExists))
        && (scan.Missing? ==> r == Ok(id))
      ensures r.Err? ==> durable == old(durable) && log == old(log)
      ensures r.Ok? ==>
        var user := NewUser(id, email, hash(password), name, plan.GetOr(Str(DEFAULT_PLAN)), now);
        && durable == Write(old(durable), USERS_KEY, Arr(old(UsersIn(durable)).items + [Obj(user)]))
        && log == old(log) + [Message("users:updated", Some(Str(id)))]
    {
      var users := JsonGet(USERS_KEY, Arr([]));
      match FindIn(users, "email", Str(email))
      case Throws =>
        r := Err(TypeError);
      case Found(_) =>
        r := Err(EmailExists);
      case Missing =>
        var digest := hash(password);
        var user := NewUser(id, email, digest, name, plan.GetOr(Str(DEFAULT_PLAN)), now);
        JsonSet(USERS_KEY, Arr(users.items + [Obj(user)]));
        Broadcast(Message("users:updated", Some(Str(id))));
        r := Ok(id);
    }

    /** `loginUser(email, password)` */
    method LoginUser(email: string, password: string, now: int) returns (r: Result<Value, Error>)
      modifies this`durable, this`volatile, this`log
      ensures var users := old(UsersIn(durable)); var scan := FindIn(users, "email", Str(email));
        && (scan.Throws? ==> r == Err(TypeError))
        && (scan.Missing? ==> r == Err(UserNotFound))
        && (scan.Found? ==>
              r == if Matches(users.items[scan.index], "hash", Str(hash(password)))
                   then Ok(users.items[scan.index]) else Err(InvalidCredentials))
      ensures r.Err? ==> durable == old(durable) && volatile == old(volatile) && log == old(log)
      ensures r.Ok? ==> r.value.Obj?
      ensures r.Ok? && r.value.Obj? ==>
        var session := Obj(SessionFor(r.value.fields, now));
        && volatile == old(volatile)[SESSION_KEY := Encoded(session)]
        && durable == Write(old(durable), SESSION_KEY, session)
        && log == old(log) + [Message("session:changed", Lookup(r.value.fields, "id"))]
    {
      var users := JsonGet(USERS_KEY, Arr([]));
      match FindIn(users, "email", Str(email))
      case Throws =>
        r := Err(TypeError);
      case Missing =>
        r := Err(UserNotFound);
      case Found(i) =>
        var user := users.items[i];
        var digest := hash(password);
        if !Matches(user, "hash", Str(digest)) {
          r := Err(InvalidCredentials);
        } else {
          var session := Obj(SessionFor(user.fields, now));
          volatile := volatile[SESSION_KEY := Encoded(session)];
          JsonSet(SESSION_KEY, session);
          Broadcast(Message("session:changed", Lookup(user.fields, "id")));
          r := Ok(user);
        }
    }

    /** `logout()` */
    method Logout()
      modifies this`durable, this`volatile, this`log
      ensures volatile == old(volatile) - {SESSION_KEY}
      ensures durable == Write(old(durable), SESSION_KEY, Null)
      ensures log == old(log) + [Message("session:changed", Some(Null))]
    {
      volatile := volatile - {SESSION_KEY};
      JsonSet(SESSION_KEY, Null);
      Broadcast(Message("session:changed", Some(Null)));
    }

    /** `currentUser()` */
    function CurrentUser(): Result<Option<Value>, Error>
      reads this
    {
      CurrentUserIn(durable)
    }

    /** `createTrade(trade)` */
    method CreateTrade(trade: Record, id: string, now: int) returns (r: Result<Record, Error>)
      modifies this`durable, this`log
      ensures old(TradesIn(durable)).Arr? <==> r.Ok?
      ensures r.Err? ==> r.error == TypeError && durable == old(durable) && log == old(log)
      ensures r.Ok? ==>
        && r.value == Stamped(trade, id, now)
        && durable == Write(old(durable), TRADES_KEY, Arr(old(TradesIn(durable)).items + [Obj(r.value)]))
        && log == old(log) + [Message("trades:created", Some(Str(id)))]
    {
      var trades := JsonGet(TRADES_KEY, Arr([]));
      if !trades.Arr? {
        r := Err(TypeError);
        return;
      }
      var t := Stamped(trade, id, now);
      JsonSet(TRADES_KEY, Arr(trades.items + [Obj(t)]));
      Broadcast(Message("trades:created", Some(Str(id))));
      r := Ok(t);
    }

    /** `updateTrade(id, updates)` */
    method UpdateTrade(id: string, updates: Record, now: int) returns (r: Result<Record, Error>)
      modifies this`durable, this`log
      ensures var trades := old(TradesIn(durable)); var scan := FindIn(trades, "id", Str(id));
        && (scan.Throws? ==> r == Err(TypeError))
        && (scan.Missing? ==> r == Err(NotFound))
        && (scan.Found? ==> r == Ok(Patched(trades.items[scan.index].fields, updates, now)))
      ensures r.Err? ==> durable == old(durable) && log == old(log)
      ensures r.Ok? ==>
        var trades := old(TradesIn(durable)); var idx := FindIn(trades, "id", Str(id)).index;
        && durable == Write(old(durable), TRADES_KEY, Arr(trades.items[idx := Obj(r.value)]))
        && log == old(log) + [Message("trades:updated", Some(Str(id)))]
    {
      var trades := JsonGet(TRADES_KEY, Arr([]));
      match FindIn(trades, "id", Str(id))
      case Throws =>
        r := Err(TypeError);
      case Missing =>
        r := Err(NotFound);
      case Found(idx) =>
        var t := Patched(trades.items[idx].fields, updates, now);
        JsonSet(TRADES_KEY, Arr(trades.items[idx := Obj(t)]));
        Broadcast(Message("trades:updated", Some(Str(id))));
        r := Ok(t);
    }

    /** `deleteTrade(id)` */
    method DeleteTrade(id: string) returns (r: Result<bool, Error>)
      modifies this`durable, this`log
      ensures var trades := old(TradesIn(durable));
        r == if trades.Arr? && Null !in trades.items then Ok(true) else Err(TypeError)
      ensures r.Err? ==> durable == old(durable) && log == old(log)
      ensures r.Ok? ==>
        && durable == Write(old(durable), TRADES_KEY,
                            Arr(RemoveWhere(old(TradesIn(durable)).items, "id", Str(id)).value))
        && log == old(log) + [Message("trades:deleted", Some(Str(id)))]
    {
      var trades := JsonGet(TRADES_KEY, Arr([]));
      if !trades.Arr? {
        r := Err(TypeError);
        return;
      }
      match RemoveWhere(trades.items, "id", Str(id))
      case None =>
        r := Err(TypeError);
      case Some(kept) =>
        JsonSet(TRADES_KEY, Arr(kept));
        Broadcast(Message("trades:deleted", Some(Str(id))));
        r := Ok(true);
    }

    /** `getTrades()` */
    function GetTrades(): Value
      reads this
    {
      TradesIn(durable)
    }
  }

  /*
   * Properties that relate several operations. Each starts from the durable
   * store an operation's postcondition produces.
   */

  /**
   * After a successful `registerUser`, its email is taken: the next search by
   * that email finds the new record, last, so a second registration fails with
   * EmailExists and `loginUser` with the right password finds the new user.
   */
  lemma RegisteredUserIsFound(durable: Storage, id: string, email: string, digest: string,
                              name: string, plan: Value, now: int)
    requires FindIn(UsersIn(durable), "email", Str(email)).Missing?
    ensures var user := NewUser(id, email, digest, name, plan, now);
      var after := Write(durable, USERS_KEY, Arr(UsersIn(durable).items + [Obj(user)]));
      && FindIn(UsersIn(after), "email", Str(email)) == Found(|UsersIn(durable).items|)
      && UsersIn(after).items[|UsersIn(durable).items|] == Obj(user)
      && Matches(Obj(user), "hash", Str(digest))
  {
    var user := NewUser(id, email, digest, name, plan, now);
    var items := UsersIn(durable).items;
    ReadAfterWrite(durable, USERS_KEY, Arr(items + [Obj(user)]), Arr([]));
    FindAppend(items, Obj(user), "email", Str(email));
  }

  /**
   * After a successful `loginUser` for the user found at `i`, `currentUser()`
   * returns the first user whose `id` is that user's id: the logged-in record
   * itself when no earlier record shares its id. An id that is absent or falsy
   * gives no current user, and one that is an array or object never equals
   * a parsed id, so no user is ever returned for it.
   */
  lemma CurrentUserAfterLogin(durable: Storage, email: string, i: nat, now: int)
    requires FindIn(UsersIn(durable), "email", Str(email)) == Found(i)
    ensures var users := UsersIn(durable).items;
      var user := users[i];
      var after := Write(durable, SESSION_KEY, Obj(SessionFor(user.fields, now)));
      var uid := Lookup(user.fields, "id");
      && (uid.None? || !Truthy(uid.value) ==> CurrentUserIn(after) == Ok(None))
      && (uid.Some? && Truthy(uid.value) && (uid.value.Arr? || uid.value.Obj?) ==>
            CurrentUserIn(after) != Ok(Some(user)) && (CurrentUserIn(after).Ok? ==> CurrentUserIn(after).value.None?))
      && (uid.Some? && Truthy(uid.value) && !uid.value.Arr? && !uid.value.Obj? ==>
            && Find(users, "id", uid.value).Found?
            && Find(users, "id", uid.value).index <= i
            && CurrentUserIn(after) == Ok(Some(users[Find(users, "id", uid.value).index])))
      && (uid.Some? && Truthy(uid.value) && !uid.value.Arr? && !uid.value.Obj?
          && (forall k :: 0 <= k < i ==> !Matches(users[k], "id", uid.value)) ==>
            CurrentUserIn(after) == Ok(Some(user)))
  {
    var users := UsersIn(durable).items;
    var user := users[i];
    var session := Obj(SessionFor(user.fields, now));
    var after := Write(durable, SESSION_KEY, session);
    ReadAfterWrite(durable, SESSION_KEY, session, Null);
    ReadOtherAfterWrite(durable, SESSION_KEY, USERS_KEY, session, Arr([]));
    var uid := Lookup(user.fields, "id");
    if uid.Some? && Truthy(uid.value) {
      assert SessionUserId(after) == uid;
      if uid.value.Arr? || uid.value.Obj? {
        assert !Matches(user, "id", uid.value);
      } else {
        assert Matches(user, "id", uid.value);
        assert forall k :: 0 <= k < i ==> users[k] != Null by {
          forall k | 0 <= k < i ensures users[k] != Null {
            assert users[..i][k] == users[k];
          }
        }
        FindStopsBy(users, i, "id", uid.value);
        var j := Find(users, "id", uid.value).index;
        if forall k :: 0 <= k < i ==> !Matches(users[k], "id", uid.value) {
          assert j == i;
        }
      }
    }
  }

  /**
   * A user registered under an id no earlier record has is, once logged in,
   * the current user.
   */
  lemma RegisteredUserIsCurrent(durable: Storage, id: string, email: string, digest: string,
                                name: string, plan: Value, t1: int, t2: int)
    requires FindIn(UsersIn(durable), "email", Str(email)).Missing?
    requires FindIn(UsersIn(durable), "id", Str(id)).Missing? && id != ""
    ensures var user := NewUser(id, email, digest, name, plan, t1);
      var withUser := Write(durable, USERS_KEY, Arr(UsersIn(durable).items + [Obj(user)]));
      CurrentUserIn(Write(withUser, SESSION_KEY, Obj(SessionFor(user, t2)))) == Ok(Some(Obj(user)))
  {
    var users := UsersIn(durable).items;
    var user := NewUser(id, email, digest, name, plan, t1);
    var withUser := Write(durable, USERS_KEY, Arr(users + [Obj(user)]));
    RegisteredUserIsFound(durable, id, email, digest, name, plan, t1);
    FindAppend(users, Obj(user), "id", Str(id));
    assert UsersIn(withUser).items == users + [Obj(user)];
    assert Lookup(user, "id") == Some(Str(id)) && Truthy(Str(id));
    CurrentUserAfterLogin(withUser, email, |users|, t2);
  }

  /** After `logout()` there is no current user, whatever the users array holds. */
  lemma NoCurrentUserAfterLogout(durable: Storage)
    ensures CurrentUserIn(Write(durable, SESSION_KEY, Null)) == Ok(None)
  {
    ReadAfterWrite(durable, SESSION_KEY, Null, Null);
  }

  /** Logging out twice leaves both stores as one logout left them. */
  lemma LogoutIdempotent(durable: Storage, volatile: Storage)
    ensures Write(Write(durable, SESSION_KEY, Null), SESSION_KEY, Null) == Write(durable, SESSION_KEY, Null)
    ensures (volatile - {SESSION_KEY}) - {SESSION_KEY} == volatile - {SESSION_KEY}
  {
  }

  /** Writing the trades array never changes who `currentUser()` is. */
  lemma CurrentUserIgnoresTrades(durable: Storage, trades: Value)
    ensures CurrentUserIn(Write(durable, TRADES_KEY, trades)) == CurrentUserIn(durable)
  {
    ReadOtherAfterWrite(durable, TRADES_KEY, SESSION_KEY, trades, Null);
    ReadOtherAfterWrite(durable, TRADES_KEY, USERS_KEY, trades, Arr([]));
  }

  /** Appending a user to the users array keeps the current user, once there is one. */
  lemma {:induction false} CurrentUserSurvivesRegister(durable: Storage, user: Record)
    requires UsersIn(durable).Arr?
    requires CurrentUserIn(durable).Ok? && CurrentUserIn(durable).value.Some?
    ensures CurrentUserIn(Write(durable, USERS_KEY, Arr(UsersIn(durable).items + [Obj(user)])))
            == CurrentUserIn(durable)
  {
    var items := UsersIn(durable).items;
    var after := Write(durable, USERS_KEY, Arr(items + [Obj(user)]));
    ReadAfterWrite(durable, USERS_KEY, Arr(items + [Obj(user)]), Arr([]));
    ReadOtherAfterWrite(durable, USERS_KEY, SESSION_KEY, Arr(items + [Obj(user)]), Null);
    assert SessionUserId(after) == SessionUserId(durable);
    FindAppend(items, Obj(user), "id", SessionUserId(durable).value);
  }

  /**
   * After `createTrade`, `getTrades()` holds every earlier record unchanged and
   * the new one last; a caller-supplied `id` or `createdAt` overrides the stamped one.
   */
  lemma CreatedTradeIsLast(durable: Storage, trade: Record, id: string, now: int)
    requires TradesIn(durable).Arr?
    ensures var before := TradesIn(durable).items;
      var after := TradesIn(Write(durable, TRADES_KEY, Arr(before + [Obj(Stamped(trade, id, now))])));
      && after.Arr? && |after.items| == |before| + 1
      && after.items[..|before|] == before
      && after.items[|before|] == Obj(Stamped(trade, id, now))
      && after.items[|before|].fields["id"] == (if "id" in trade then trade["id"] else Str(id))
      && after.items[|before|].fields["createdAt"] ==
           (if "createdAt" in trade then trade["createdAt"] else Num(now as real))
  {
    var before := TradesIn(durable).items;
    ReadAfterWrite(durable, TRADES_KEY, Arr(before + [Obj(Stamped(trade, id, now))]), Arr([]));
    assert (before + [Obj(Stamped(trade, id, now))])[..|before|] == before;
  }

  /**
   * After `updateTrade(id, updates)`, every other record is unchanged, and a
   * patch that keeps the `id` leaves the record where the next lookup by that
   * id finds it.
   */
  lemma UpdatedTradeIsFoundAgain(durable: Storage, id: string, updates: Record, now: int)
    requires FindIn(TradesIn(durable), "id", Str(id)).Found?
    requires "id" in updates ==> updates["id"] == Str(id)
    ensures var trades := TradesIn(durable).items;
      var idx := FindIn(TradesIn(durable), "id", Str(id)).index;
      var patched := trades[idx := Obj(Patched(trades[idx].fields, updates, now))];
      var after := TradesIn(Write(durable, TRADES_KEY, Arr(patched)));
      && after == Arr(patched) && |patched| == |trades|
      && (forall k :: 0 <= k < |trades| && k != idx ==> patched[k] == trades[k])
      && FindIn(after, "id", Str(id)) == Found(idx)
  {
    var trades := TradesIn(durable).items;
    var idx := FindIn(TradesIn(durable), "id", Str(id)).index;
    var t := Patched(trades[idx].fields, updates, now);
    var patched := trades[idx := Obj(t)];
    ReadAfterWrite(durable, TRADES_KEY, Arr(patched), Arr([]));
    assert Matches(Obj(t), "id", Str(id));
    FindReplaceAt(trades, idx, Obj(t), "id", Str(id));
  }

  /**
   * After `deleteTrade(id)` no record has that id, so `updateTrade(id, …)`
   * fails with NotFound, and a second `deleteTrade(id)` writes back exactly the
   * array the first one left.
   */
  lemma DeletedTradeIsGone(durable: Storage, id: string)
    requires TradesIn(durable).Arr? && Null !in TradesIn(durable).items
    ensures var kept := RemoveWhere(TradesIn(durable).items, "id", Str(id)).value;
      var after := Write(durable, TRADES_KEY, Arr(kept));
      && FindIn(TradesIn(after), "id", Str(id)) == Missing
      && Null !in TradesIn(after).items
      && Write(after, TRADES_KEY, Arr(RemoveWhere(TradesIn(after).items, "id", Str(id)).value)) == after
  {
    var kept := RemoveWhere(TradesIn(durable).items, "id", Str(id)).value;
    var after := Write(durable, TRADES_KEY, Arr(kept));
    ReadAfterWrite(durable, TRADES_KEY, Arr(kept), Arr([]));
    RemoveWhereThenFind(TradesIn(durable).items, "id", Str(id));
    RemoveWhereIdempotent(TradesIn(durable).items, "id", Str(id));
  }

  /**
   * A user's round trip through the store: register, register again, log in
   * and ask who is logged in.
   */
  method AccountScenario(hash: string -> string, durable: Storage, volatile: Storage,
                         email: string, password: string, name: string, id: string, t1: int, t2: int)
    returns (registered: Result<string, Error>, again: Result<string, Error>, login: Result<Value, Error>,
             who: Result<Option<Value>, Error>)
    requires FindIn(UsersIn(durable), "email", Str(email)).Missing?
    requires FindIn(UsersIn(durable), "id", Str(id)).Missing? && id != ""
    ensures registered == Ok(id)
    ensures again == Err(EmailExists)
    ensures login == Ok(Obj(NewUser(id, email, hash(password), name, Str(DEFAULT_PLAN), t1)))
    ensures who == Ok(login.ToOption())
  {
    var store := new Store(hash, durable, volatile);
    var users := UsersIn(durable).items;
    var user := NewUser(id, email, hash(password), name, Str(DEFAULT_PLAN), t1);
    var withUser := Write(durable, USERS_KEY, Arr(users + [Obj(user)]));
    RegisteredUserIsFound(durable, id, email, hash(password), name, Str(DEFAULT_PLAN), t1);
    registered := store.RegisterUser(email, password, name, None, id, t1);
    assert store.durable == withUser;
    again := store.RegisterUser(email, password, name, None, id, t1);
    assert store.durable == withUser;
    login := store.LoginUser(email, password, t2);
    assert login == Ok(Obj(user));
    var withSession := Write(withUser, SESSION_KEY, Obj(SessionFor(user, t2)));
    assert store.durable == withSession;
    RegisteredUserIsCurrent(durable, id, email, hash(password), name, Str(DEFAULT_PLAN), t1, t2);
    who := store.CurrentUser();
  }

  /**
   * Logging out, whoever was logged in: afterwards there is no current user,
   * and a second logout leaves both stores as the first one left them.
   */
  method LogoutScenario(hash: string -> string, durable: Storage, volatile: Storage)
    returns (who: Result<Option<Value>, Error>, once: (Storage, Storage), twice: (Storage, Storage))
    ensures who == Ok(None)
    ensures once == (Write(durable, SESSION_KEY, Null), volatile - {SESSION_KEY})
    ensures twice == once
  {
    var store := new Store(hash, durable, volatile);
    store.Logout();
    NoCurrentUserAfterLogout(durable);
    who := store.CurrentUser();
    once := (store.durable, store.volatile);
    store.Logout();
    LogoutIdempotent(durable, volatile);
    twice := (store.durable, store.volatile);
  }

  /** A trade's creation and update: the stored record carries the stamps and then the patch. */
  method TradeScenario(hash: string -> string, durable: Storage, volatile: Storage,
                       trade: Record, id: string, t1: int, updates: Record, t2: int)
    returns (created: Result<Record, Error>, updated: Result<Record, Error>, trades: Value)
    requires TradesIn(durable).Arr?
    requires FindIn(TradesIn(durable), "id", Str(id)).Missing?
    requires "id" !in trade
    ensures created == Ok(Stamped(trade, id, t1))
    ensures updated == Ok(Patched(Stamped(trade, id, t1), updates, t2))
    ensures trades == Arr(TradesIn(durable).items + [Obj(updated.value)])
  {
    var store := new Store(hash, durable, volatile);
    var before := TradesIn(durable).items;
    var t := Stamped(trade, id, t1);
    var withTrade := Write(durable, TRADES_KEY, Arr(before + [Obj(t)]));
    created := store.CreateTrade(trade, id, t1);
    assert store.durable == withTrade;
    ReadAfterWrite(durable, TRADES_KEY, Arr(before + [Obj(t)]), Arr([]));
    FindAppend(before, Obj(t), "id", Str(id));
    assert FindIn(TradesIn(withTrade), "id", Str(id)) == Found(|before|);
    var u := Patched(t, updates, t2);
    assert (before + [Obj(t)])[|before| := Obj(u)] == before + [Obj(u)];
    var withUpdate := Write(withTrade, TRADES_KEY, Arr(before + [Obj(u)]));
    updated := store.UpdateTrade(id, updates, t2);
    assert store.durable == withUpdate;
    ReadAfterWrite(withTrade, TRADES_KEY, Arr(before + [Obj(u)]), Arr([]));
    trades := store.GetTrades();
  }

  /**
   * Deleting a trade by id from a readable journal: the delete succeeds, a
   * second delete succeeds too and changes nothing, and updating the deleted
   * id then fails with NotFound.
   */
  method DeleteScenario(hash: string -> string, durable: Storage, volatile: Storage,
                        id: string, updates: Record, now: int)
    returns (deleted: Result<bool, Error>, deletedAgain: Result<bool, Error>, stale: Result<Record, Error>)
    requires TradesIn(durable).Arr? && Null !in TradesIn(durable).items
    ensures deleted == Ok(true) && deletedAgain == Ok(true)
    ensures stale == Err(NotFound)
  {
    var store := new Store(hash, durable, volatile);
    DeletedTradeIsGone(durable, id);
    var withoutTrade := Write(durable, TRADES_KEY, Arr(RemoveWhere(TradesIn(durable).items, "id", Str(id)).value));
    deleted := store.DeleteTrade(id);
    assert store.durable == withoutTrade;
    deletedAgain := store.DeleteTrade(id);
    assert store.durable == withoutTrade;
    stale := store.UpdateTrade(id, updates, now);
  }
}
