/**
 * The array searches assets/js/app.js relies on: `find`/`findIndex` with a
 * callback `x => x[key] === target`, and `filter` with its negation. Reading a
 * property of a `null` element throws a TypeError; reading it of any other
 * non-object gives `undefined`.
 */
module Arrays {
  import opened Wrappers
  import opened Json

  /** Outcome of a left-to-right search. */
  datatype Search = Found(index: nat) | Missing | Throws

  /** `x[key] === target` holds for the element `x`. */
  predicate Matches(x: Value, key: string, target: Value) {
    x.Obj? && key in x.fields && StrictEquals(x.fields[key], target)
  }

  /** The callback runs without throwing, and is false, on every element of `s` from `lo` up to `hi`. */
  ghost predicate Clear(s: seq<Value>, lo: nat, hi: nat, key: string, target: Value)
    requires lo <= hi <= |s|
  {
    forall j :: lo <= j < hi ==> s[j] != Null && !Matches(s[j], key, target)
  }

  /** The callback runs on every element of `s` without throwing and is false on each. */
  ghost predicate Passes(s: seq<Value>, key: string, target: Value) {
    Clear(s, 0, |s|, key, target)
  }

  /** The search loop of `findIndex` started at position `lo`. */
  function FindFrom(s: seq<Value>, lo: nat, key: string, target: Value): (r: Search)
    requires lo <= |s|
    decreases |s| - lo
    ensures r.Missing? <==> Clear(s, lo, |s|, key, target)
    ensures r.Found? ==> lo <= r.index < |s| && Matches(s[r.index], key, target)
                         && Clear(s, lo, r.index, key, target)
    ensures r.Throws? ==> exists j :: lo <= j < |s| && s[j] == Null && Clear(s, lo, j, key, target)
  {
    if lo == |s| then Missing
    else if s[lo] == Null then Throws
    else if Matches(s[lo], key, target) then Found(lo)
    else FindFrom(s, lo + 1, key, target)
  }

  /** `s.findIndex(x => x[key] === target)`, with a thrown TypeError as `Throws`. */
  function Find(s: seq<Value>, key: string, target: Value): (r: Search)
    ensures r.Missing? <==> Passes(s, key, target)
    ensures r.Found? ==> r.index < |s| && Matches(s[r.index], key, target)
                         && Clear(s, 0, r.index, key, target)
    ensures r.Throws? ==> exists j :: 0 <= j < |s| && s[j] == Null && Clear(s, 0, j, key, target)
  {
    FindFrom(s, 0, key, target)
  }

  /** Calling `find`/`findIndex` on a parsed value: anything but an array has no such method. */
  function FindIn(v: Value, key: string, target: Value): (r: Search)
    ensures !v.Arr? ==> r == Throws
    ensures v.Arr? ==> r == Find(v.items, key, target)
  {
    if v.Arr? then Find(v.items, key, target) else Throws
  }

  /** `FindAppend` for a search started at `lo`. */
  lemma {:induction false} FindFromAppend(s: seq<Value>, x: Value, lo: nat, key: string, target: Value)
    requires lo <= |s|
    decreases |s| - lo
    ensures FindFrom(s + [x], lo, key, target) ==
      if !FindFrom(s, lo, key, target).Missing? then FindFrom(s, lo, key, target)
      else if x == Null then Throws
      else if Matches(x, key, target) then Found(|s|)
      else Missing
  {
    if lo < |s| {
      assert (s + [x])[lo] == s[lo];
      FindFromAppend(s, x, lo + 1, key, target);
    } else {
      assert (s + [x])[lo] == x;
    }
  }

  /** Appending one element changes a search only when nothing earlier stopped it. */
  lemma FindAppend(s: seq<Value>, x: Value, key: string, target: Value)
    ensures Find(s + [x], key, target) ==
      if !Find(s, key, target).Missing? then Find(s, key, target)
      else if x == Null then Throws
      else if Matches(x, key, target) then Found(|s|)
      else Missing
  {
    FindFromAppend(s, x, 0, key, target);
  }

  /** `FindStopsBy` for a search started at `lo`. */
  lemma {:induction false} FindFromStopsBy(s: seq<Value>, lo: nat, i: nat, key: string, target: Value)
    requires lo <= i < |s| && Matches(s[i], key, target)
    requires forall k :: lo <= k < i ==> s[k] != Null
    decreases i - lo
    ensures FindFrom(s, lo, key, target).Found? && FindFrom(s, lo, key, target).index <= i
  {
    if lo < i && !Matches(s[lo], key, target) {
      FindFromStopsBy(s, lo + 1, i, key, target);
    }
  }

  /** A search reaching a matching element at `i` over non-null elements stops there or earlier. */
  lemma FindStopsBy(s: seq<Value>, i: nat, key: string, target: Value)
    requires i < |s| && Matches(s[i], key, target)
    requires forall k :: 0 <= k < i ==> s[k] != Null
    ensures Find(s, key, target).Found? && Find(s, key, target).index <= i
  {
    FindFromStopsBy(s, 0, i, key, target);
  }

  /** `FindReplaceAt` for a search started at `lo`. */
  lemma {:induction false} FindFromReplaceAt(s: seq<Value>, lo: nat, i: nat, y: Value, key: string, target: Value)
    requires lo <= i < |s| && FindFrom(s, lo, key, target) == Found(i)
    requires Matches(y, key, target)
    decreases i - lo
    ensures FindFrom(s[i := y], lo, key, target) == Found(i)
  {
    if lo < i {
      FindFromReplaceAt(s, lo + 1, i, y, key, target);
    }
  }

  /** A search that stops at `i` is not affected by a replacement at `i` that still matches. */
  lemma FindReplaceAt(s: seq<Value>, i: nat, y: Value, key: string, target: Value)
    requires Find(s, key, target) == Found(i)
    requires Matches(y, key, target)
    ensures Find(s[i := y], key, target) == Found(i)
  {
    FindFromReplaceAt(s, 0, i, y, key, target);
  }

  /**
   * `s.filter(x => x[key] !== target)`; `None` when the callback throws, which it
   * does as soon as one element is `null`.
   */
  function RemoveWhere(s: seq<Value>, key: string, target: Value): (r: Option<seq<Value>>)
    ensures r.None? <==> Null in s
    ensures r.Some? ==> |r.value| <= |s|
    ensures r.Some? ==> forall i :: 0 <= i < |r.value| ==> !Matches(r.value[i], key, target)
  {
    if s == [] then Some([])
    else if s[0] == Null then None
    else
      match RemoveWhere(s[1..], key, target)
      case None => None
      case Some(rest) => if Matches(s[0], key, target) then Some(rest) else Some([s[0]] + rest)
  }

  /** The filter drops every matching element and keeps every other one as often as it occurs. */
  lemma {:induction false} RemoveWhereCounts(s: seq<Value>, key: string, target: Value, x: Value)
    requires RemoveWhere(s, key, target).Some?
    ensures multiset(RemoveWhere(s, key, target).value)[x] ==
      if Matches(x, key, target) then 0 else multiset(s)[x]
  {
    if s != [] {
      RemoveWhereCounts(s[1..], key, target, x);
      assert s == [s[0]] + s[1..];
    }
  }

  /** One step of the filter: the head is kept unless it matches. */
  lemma RemoveWhereCons(h: Value, t: seq<Value>, key: string, target: Value)
    requires h != Null && RemoveWhere(t, key, target).Some?
    ensures RemoveWhere([h] + t, key, target) ==
      Some((if Matches(h, key, target) then [] else [h]) + RemoveWhere(t, key, target).value)
  {
    assert ([h] + t)[0] == h && ([h] + t)[1..] == t;
    assert [] + RemoveWhere(t, key, target).value == RemoveWhere(t, key, target).value;
  }

  /** Filtering a concatenation filters each part and keeps their order. */
  lemma {:induction false} RemoveWhereAppend(a: seq<Value>, b: seq<Value>, key: string, target: Value)
    requires RemoveWhere(a, key, target).Some? && RemoveWhere(b, key, target).Some?
    ensures RemoveWhere(a + b, key, target) ==
      Some(RemoveWhere(a, key, target).value + RemoveWhere(b, key, target).value)
  {
    if a == [] {
      assert a + b == b && [] + RemoveWhere(b, key, target).value == RemoveWhere(b, key, target).value;
    } else {
      var h, t := a[0], a[1..];
      assert a == [h] + t && a + b == [h] + (t + b);
      RemoveWhereAppend(t, b, key, target);
      RemoveWhereCons(h, t, key, target);
      RemoveWhereCons(h, t + b, key, target);
      var hd := if Matches(h, key, target) then [] else [h];
      var rt, rb := RemoveWhere(t, key, target).value, RemoveWhere(b, key, target).value;
      assert hd + (rt + rb) == (hd + rt) + rb;
    }
  }

  /** The kept elements appear in their original relative order: one element at a time. */
  lemma RemoveWhereSingle(x: Value, key: string, target: Value)
    ensures RemoveWhere([x], key, target) ==
      if x == Null then None else if Matches(x, key, target) then Some([]) else Some([x])
  {
    assert [x][1..] == [];
    assert [x] + [] == [x];
  }

  /** Filtering what a filter produced changes nothing. */
  lemma {:induction false} RemoveWhereIdempotent(s: seq<Value>, key: string, target: Value)
    requires RemoveWhere(s, key, target).Some?
    ensures RemoveWhere(RemoveWhere(s, key, target).value, key, target) == RemoveWhere(s, key, target)
  {
    if s != [] {
      RemoveWhereIdempotent(s[1..], key, target);
    }
  }

  /** After the filter nothing is left for a search to find, and the search does not throw. */
  lemma RemoveWhereThenFind(s: seq<Value>, key: string, target: Value)
    requires RemoveWhere(s, key, target).Some?
    ensures Find(RemoveWhere(s, key, target).value, key, target) == Missing
  {
    var r := RemoveWhere(s, key, target).value;
    forall j | 0 <= j < |r| ensures r[j] != Null && !Matches(r[j], key, target) {
      assert r[j] in r;
    }
  }
}
