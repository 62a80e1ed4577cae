/**
 * Subscriber-id lists: sanitising caller input, computing which ids a post
 * must add to a topic, and the set operations the store applies to a
 * topic's subscriber array.
 */
module Subscribers {
  import opened JsValues

  predicate NoDup(s: seq<string>) {
    forall i, j :: 0 <= i < j < |s| ==> s[i] != s[j]
  }

  /** Index of the first occurrence of x in s (`s.indexOf(x)`). */
  function IndexOf(s: seq<string>, x: string): (k: nat)
    requires x in s
    ensures k < |s| && s[k] == x && x !in s[..k]
  {
    if s[0] == x then 0 else 1 + IndexOf(s[1..], x)
  }

  // ---------------------------------------------------------------- sanitize

  /** The string forms of the truthy entries of elems, in order. */
  function TruthyStrings(elems: seq<Value>): (r: seq<string>) {
    if elems == [] then []
    else
      var rest := TruthyStrings(elems[..|elems| - 1]);
      var e := elems[|elems| - 1];
      if Truthy(e) then rest + [ToStr(e)] else rest
  }

  /** What sanitizeSubscriberIds returns for the value ids. */
  function SanitizedIds(ids: Value): seq<string> {
    if Truthy(ids) && ids.Arr? then TruthyStrings(ids.elems) else []
  }

  /** sanitizeSubscriberIds: collect the truthy entries of an array as strings. */
  method SanitizeSubscriberIds(ids: Value) returns (r: seq<string>)
    ensures r == SanitizedIds(ids)
    ensures !ids.Arr? ==> r == []
  {
    r := [];
    if !Truthy(ids) {
      return;
    }
    if ids.Arr? {
      var elems := ids.elems;
      var i := 0;
      while i < |elems|
        invariant 0 <= i <= |elems|
        invariant r == TruthyStrings(elems[..i])
      {
        assert elems[..i + 1][..i] == elems[..i];
        if Truthy(elems[i]) {
          r := r + [ToStr(elems[i])];
        }
        i := i + 1;
      }
      assert elems[..i] == elems;
    }
  }

  /** Sanitising never lengthens the input. */
  lemma {:induction false} TruthyStringsLength(elems: seq<Value>)
    ensures |TruthyStrings(elems)| <= |elems|
  {
    if elems != [] {
      TruthyStringsLength(elems[..|elems| - 1]);
    }
  }

  /** Sanitising is applied entry by entry, so it keeps the input order. */
  lemma {:induction false} TruthyStringsAppend(a: seq<Value>, b: seq<Value>)
    ensures TruthyStrings(a + b) == TruthyStrings(a) + TruthyStrings(b)
    decreases |b|
  {
    if b == [] {
      assert a + b == a;
    } else {
      var b' := b[..|b| - 1];
      assert (a + b)[..|a + b| - 1] == a + b';
      TruthyStringsAppend(a, b');
    }
  }

  /** An id is in the result exactly when some truthy entry has it as string form. */
  lemma {:induction false} TruthyStringsMembers(elems: seq<Value>, x: string)
    ensures x in TruthyStrings(elems) <==>
            exists j :: 0 <= j < |elems| && Truthy(elems[j]) && ToStr(elems[j]) == x
  {
    if elems != [] {
      var init := elems[..|elems| - 1];
      TruthyStringsMembers(init, x);
      if x in TruthyStrings(elems) && x !in TruthyStrings(init) {
        assert ToStr(elems[|elems| - 1]) == x;
      }
      if j :| 0 <= j < |elems| && Truthy(elems[j]) && ToStr(elems[j]) == x {
        if j < |elems| - 1 {
          assert init[j] == elems[j];
        }
      }
    }
  }

  /** An array of strings sanitises to its non-empty strings, none of them empty. */
  lemma {:induction false} SanitizedStrings(elems: seq<Value>)
    requires forall j :: 0 <= j < |elems| ==> elems[j].Str?
    ensures forall k :: 0 <= k < |TruthyStrings(elems)| ==> TruthyStrings(elems)[k] != ""
  {
    if elems != [] {
      SanitizedStrings(elems[..|elems| - 1]);
    }
  }

  // ---------------------------------------------------------------- needToAddIds

  /**
   * The ids of newIds a post must add: non-empty, not yet subscribed, each
   * once, in the order of their first occurrence.
   */
  function NeedToAdd(newIds: seq<string>, current: seq<string>): (r: seq<string>) {
    if newIds == [] then []
    else
      var acc := NeedToAdd(newIds[..|newIds| - 1], current);
      var id := newIds[|newIds| - 1];
      if id != "" && id !in current && id !in acc then acc + [id] else acc
  }

  /** The `needToAddIds` loop of deliverMessagesAndAddSubscription. */
  method NeedToAddIds(newIds: seq<string>, current: seq<string>) returns (need: seq<string>)
    ensures need == NeedToAdd(newIds, current)
  {
    need := [];
    var i := 0;
    while i < |newIds|
      invariant 0 <= i <= |newIds|
      invariant need == NeedToAdd(newIds[..i], current)
    {
      var id := newIds[i];
      assert newIds[..i + 1][..i] == newIds[..i];
      if id != "" && id !in current && id !in need {
        need := need + [id];
      }
      i := i + 1;
    }
    assert newIds[..i] == newIds;
  }

  /**
   * Exactly the non-empty ids of newIds that are not subscribed yet, with no
   * duplicate.
   */
  lemma {:induction false} NeedToAddCharacterized(newIds: seq<string>, current: seq<string>)
    ensures NoDup(NeedToAdd(newIds, current))
    ensures forall x :: x in NeedToAdd(newIds, current) <==> x in newIds && x != "" && x !in current
  {
    if newIds != [] {
      var init := newIds[..|newIds| - 1];
      NeedToAddCharacterized(init, current);
      assert newIds == init + [newIds[|newIds| - 1]];
    }
  }

  /** The ids appear in the order of their first occurrence in newIds. */
  lemma {:induction false} NeedToAddOrder(newIds: seq<string>, current: seq<string>)
    ensures forall i, j :: 0 <= i < j < |NeedToAdd(newIds, current)| ==>
      NeedToAdd(newIds, current)[i] in newIds && NeedToAdd(newIds, current)[j] in newIds &&
      IndexOf(newIds, NeedToAdd(newIds, current)[i]) < IndexOf(newIds, NeedToAdd(newIds, current)[j])
  {
    if newIds != [] {
      var init := newIds[..|newIds| - 1];
      var last := newIds[|newIds| - 1];
      NeedToAddOrder(init, current);
      NeedToAddCharacterized(init, current);
      NeedToAddCharacterized(newIds, current);
      var acc := NeedToAdd(init, current);
      var r := NeedToAdd(newIds, current);
      assert newIds == init + [last];
      forall i, j | 0 <= i < j < |r|
        ensures r[i] in newIds && r[j] in newIds && IndexOf(newIds, r[i]) < IndexOf(newIds, r[j])
      {
        assert r[i] in init by { assert r[i] == acc[i]; }
        IndexOfPrefix(init, [last], r[i]);
        if j < |acc| {
          assert r[j] == acc[j];
          IndexOfPrefix(init, [last], r[j]);
        } else {
          assert r[j] == last && last !in init;
          IndexOfLast(init, last);
        }
      }
    } else {
      assert NeedToAdd(newIds, current) == [];
    }
  }

  lemma {:induction false} IndexOfPrefix(a: seq<string>, b: seq<string>, x: string)
    requires x in a
    ensures x in a + b && IndexOf(a + b, x) == IndexOf(a, x)
  {
    if a[0] != x {
      assert (a + b)[1..] == a[1..] + b;
      IndexOfPrefix(a[1..], b, x);
    }
  }

  lemma {:induction false} IndexOfLast(a: seq<string>, x: string)
    requires x !in a
    ensures IndexOf(a + [x], x) == |a|
  {
    if a != [] {
      assert (a + [x])[1..] == a[1..] + [x];
      IndexOfLast(a[1..], x);
    }
  }

  /** The poster (put first) is added exactly when not subscribed yet, and then first. */
  lemma PosterAddedIffNotSubscribed(userId: string, others: seq<string>, current: seq<string>)
    requires userId != ""
    ensures userId in NeedToAdd([userId] + others, current) <==> userId !in current
    ensures userId !in current ==> NeedToAdd([userId] + others, current)[0] == userId
  {
    NeedToAddCharacterized([userId] + others, current);
    if userId !in current {
      NeedToAddExtends([userId], others, current);
      assert NeedToAdd([userId], current) == [userId] by {
        assert [userId][..0] == [];
      }
    }
  }

  /** Later ids never disturb what earlier ids already contributed. */
  lemma {:induction false} NeedToAddExtends(a: seq<string>, b: seq<string>, current: seq<string>)
    ensures |NeedToAdd(a, current)| <= |NeedToAdd(a + b, current)|
    ensures NeedToAdd(a + b, current)[..|NeedToAdd(a, current)|] == NeedToAdd(a, current)
    decreases |b|
  {
    if b == [] {
      assert a + b == a;
    } else {
      var b' := b[..|b| - 1];
      assert (a + b)[..|a + b| - 1] == a + b';
      NeedToAddExtends(a, b', current);
    }
  }

  /** Nothing needs adding exactly when every non-empty id is already subscribed. */
  lemma NeedToAddEmpty(newIds: seq<string>, current: seq<string>)
    ensures NeedToAdd(newIds, current) == [] <==> forall x :: x in newIds && x != "" ==> x in current
  {
    NeedToAddCharacterized(newIds, current);
    if NeedToAdd(newIds, current) != [] {
      assert NeedToAdd(newIds, current)[0] in NeedToAdd(newIds, current);
    }
  }

  // ---------------------------------------------------------------- store set operations

  /**
   * What the store does with `addSubscriberIds(ids)`: append each id not
   * already present, in order (an add-to-set of each element).
   * This is the assumed semantics of the store library.
   */
  function AddToSet(current: seq<string>, ids: seq<string>): (r: seq<string>) {
    if ids == [] then current
    else
      var acc := AddToSet(current, ids[..|ids| - 1]);
      var id := ids[|ids| - 1];
      if id in acc then acc else acc + [id]
  }

  /** Adding to a set keeps it duplicate-free and yields the union. */
  lemma {:induction false} AddToSetUnion(current: seq<string>, ids: seq<string>)
    requires NoDup(current)
    ensures NoDup(AddToSet(current, ids))
    ensures forall x :: x in AddToSet(current, ids) <==> x in current || x in ids
    ensures |AddToSet(current, ids)| >= |current| && AddToSet(current, ids)[..|current|] == current
  {
    if ids != [] {
      var init := ids[..|ids| - 1];
      AddToSetUnion(current, init);
      assert ids == init + [ids[|ids| - 1]];
    }
  }

  /** Adding ids that are new and distinct appends them unchanged. */
  lemma {:induction false} AddToSetFresh(current: seq<string>, ids: seq<string>)
    requires NoDup(ids)
    requires forall x :: x in ids ==> x !in current
    ensures AddToSet(current, ids) == current + ids
  {
    if ids != [] {
      var init := ids[..|ids| - 1];
      AddToSetFresh(current, init);
      assert ids == init + [ids[|ids| - 1]];
    }
  }

  /** `_(s).without(x)`: s with every occurrence of x removed. */
  function Without(s: seq<string>, x: string): (r: seq<string>) {
    if s == [] then []
    else
      var rest := Without(s[..|s| - 1], x);
      if s[|s| - 1] == x then rest else rest + [s[|s| - 1]]
  }

  /** Removing x keeps every other element, and drops x entirely. */
  lemma {:induction false} WithoutMembers(s: seq<string>, x: string)
    ensures forall y :: y in Without(s, x) <==> y in s && y != x
    ensures NoDup(s) ==> NoDup(Without(s, x))
    ensures x !in s ==> Without(s, x) == s
  {
    if s != [] {
      var init := s[..|s| - 1];
      WithoutMembers(init, x);
      assert s == init + [s[|s| - 1]];
      if NoDup(s) {
        assert NoDup(init);
        assert s[|s| - 1] !in init;
      }
    }
  }

  /**
   * After the store adds the computed ids, posting the same ids again
   * finds nothing to add: the subscriber array grows by exactly the new ids.
   */
  lemma RepostAddsNothing(newIds: seq<string>, current: seq<string>)
    requires NoDup(current)
    ensures AddToSet(current, NeedToAdd(newIds, current)) == current + NeedToAdd(newIds, current)
    ensures NeedToAdd(newIds, AddToSet(current, NeedToAdd(newIds, current))) == []
  {
    var need := NeedToAdd(newIds, current);
    NeedToAddCharacterized(newIds, current);
    AddToSetFresh(current, need);
    NeedToAddEmpty(newIds, current + need);
  }
}
