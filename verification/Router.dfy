/** The event router and its bounded duplicate filter (sherwood_monitor/router.py). */
module Router {
  import opened Lists

  const CAPACITY := 128

  // ----- the filter of one subdomain: the keys of an OrderedDict, oldest first

  /** What routing an id does to the keys: refresh it, or insert it and evict the oldest past the capacity. */
  function Touch(seen: seq<string>, id: string): seq<string> {
    if id in seen then Without(seen, id) + [id]
    else if |seen| + 1 > CAPACITY then (seen + [id])[1..]
    else seen + [id]
  }

  /** The keys after a whole sequence of ids. */
  function Window(ids: seq<string>): seq<string> {
    if ids == [] then [] else Touch(Window(ids[..|ids| - 1]), ids[|ids| - 1])
  }

  // ----- the reference: distinct ids by their latest occurrence

  function LastIndex(ids: seq<string>, x: string): (r: int)
    ensures -1 <= r < |ids| && (r == -1 <==> x !in ids)
    ensures r >= 0 ==> ids[r] == x && forall k :: r < k < |ids| ==> ids[k] != x
  {
    if ids == [] then -1
    else if ids[|ids| - 1] == x then |ids| - 1
    else LastIndex(ids[..|ids| - 1], x)
  }

  /** r lists the distinct ids, in the order of their latest occurrence. */
  predicate ByLatest(r: seq<string>, ids: seq<string>) {
    && NoDup(r)
    && (forall x :: x in r ==> x in ids)
    && (forall x :: x in ids ==> x in r)
    && Rising(r, ids)
  }

  predicate Rising(r: seq<string>, ids: seq<string>) {
    forall i, j :: 0 <= i < j < |r| ==> LastIndex(ids, r[i]) < LastIndex(ids, r[j])
  }

  function Recency(ids: seq<string>): seq<string> {
    if ids == [] then []
    else Without(Recency(ids[..|ids| - 1]), ids[|ids| - 1]) + [ids[|ids| - 1]]
  }

  function LastOf(s: seq<string>, n: nat): seq<string> {
    if |s| <= n then s else s[|s| - n..]
  }

  lemma WithoutFacts(s: seq<string>, x: string)
    ensures forall y :: y in Without(s, x) <==> y in s && y != x
    ensures NoDup(s) ==> NoDup(Without(s, x))
    ensures x !in s ==> Without(s, x) == s
    ensures NoDup(s) && x in s ==> |Without(s, x)| == |s| - 1
  {
    WithoutMembers(s, x);
    if x !in s {
      WithoutAbsent(s, x);
    }
    if NoDup(s) {
      WithoutNoDup(s, x);
      if x in s {
        WithoutLength(s, x);
      }
    }
  }

  lemma {:induction false} WithoutSplit(a: seq<string>, b: seq<string>, x: string)
    ensures Without(a + b, x) == Without(a, x) + Without(b, x)
  {
    if a == [] {
      assert a + b == b;
    } else {
      WithoutSplit(a[1..], b, x);
      assert (a + b)[1..] == a[1..] + b;
      var h := if a[0] == x then [] else [a[0]];
      assert h + (Without(a[1..], x) + Without(b, x)) == (h + Without(a[1..], x)) + Without(b, x);
    }
  }

  lemma RisingCons(x: string, s: seq<string>, ids: seq<string>)
    requires Rising(s, ids) && forall y :: y in s ==> LastIndex(ids, x) < LastIndex(ids, y)
    ensures Rising([x] + s, ids)
  {
    assert forall j :: 0 <= j < |s| ==> s[j] in s;
  }

  lemma RisingTail(s: seq<string>, ids: seq<string>)
    requires Rising(s, ids) && s != []
    ensures Rising(s[1..], ids) && forall y :: y in s[1..] ==> LastIndex(ids, s[0]) < LastIndex(ids, y)
  {}

  /** Taking one element out keeps the order of the others. */
  lemma {:induction false} WithoutOrder(s: seq<string>, x: string, ids: seq<string>)
    requires Rising(s, ids)
    ensures Rising(Without(s, x), ids)
  {
    if s != [] {
      RisingTail(s, ids);
      WithoutOrder(s[1..], x, ids);
      WithoutMembers(s[1..], x);
      RisingCons(s[0], Without(s[1..], x), ids);
    }
  }

  lemma LastIndexSnoc(ids: seq<string>, id: string, x: string)
    ensures LastIndex(ids + [id], x) == if x == id then |ids| else LastIndex(ids, x)
  {
    assert (ids + [id])[..|ids|] == ids;
  }

  lemma ByLatestSnoc(w: seq<string>, front: seq<string>, id: string)
    requires NoDup(w) && forall x :: x in w <==> x in front && x != id
    requires Rising(w, front)
    ensures ByLatest(w + [id], front + [id])
  {
    forall i | 0 <= i < |w|
      ensures w[i] != id && LastIndex(front + [id], w[i]) == LastIndex(front, w[i]) < |front|
    {
      assert w[i] in w;
      LastIndexSnoc(front, id, w[i]);
    }
    LastIndexSnoc(front, id, id);
  }

  /** The reference is what it says. */
  lemma {:induction false} RecencyIsByLatest(ids: seq<string>)
    ensures ByLatest(Recency(ids), ids)
  {
    if ids != [] {
      var front, id := ids[..|ids| - 1], ids[|ids| - 1];
      assert ids == front + [id];
      RecencyIsByLatest(front);
      WithoutMembers(Recency(front), id);
      WithoutNoDup(Recency(front), id);
      WithoutOrder(Recency(front), id, front);
      assert forall x :: x in Recency(front) <==> x in front;
      ByLatestSnoc(Without(Recency(front), id), front, id);
    }
  }

  lemma LastOfAppend(a: seq<string>, b: seq<string>, n: nat)
    requires |b| >= n || a == []
    ensures LastOf(a + b, n) == LastOf(b, n)
  {
    if a == [] {
      assert a + b == b;
    }
  }

  lemma NoDupParts(a: seq<string>, b: seq<string>, x: string)
    requires NoDup(a + b) && x in b
    ensures NoDup(b) && x !in a
  {
    var k :| 0 <= k < |b| && b[k] == x;
    assert (a + b)[|a| + k] == x;
    assert forall i :: 0 <= i < |a| ==> (a + b)[i] == a[i];
    assert forall i :: 0 <= i < |b| ==> b[i] == (a + b)[|a| + i];
  }

  lemma TouchHit(old_: seq<string>, w: seq<string>, id: string)
    requires NoDup(old_ + w) && id in w && |w| <= CAPACITY && (|w| == CAPACITY || old_ == [])
    ensures Touch(w, id) == LastOf(Without(old_ + w, id) + [id], CAPACITY)
  {
    NoDupParts(old_, w, id);
    WithoutSplit(old_, w, id);
    WithoutAbsent(old_, id);
    WithoutLength(w, id);
    assert Without(old_ + w, id) + [id] == old_ + (Without(w, id) + [id]);
    LastOfAppend(old_, Without(w, id) + [id], CAPACITY);
  }

  lemma TouchMiss(old_: seq<string>, w: seq<string>, id: string)
    requires id !in w && |w| <= CAPACITY && (|w| == CAPACITY || old_ == [])
    ensures Touch(w, id) == LastOf(Without(old_ + w, id) + [id], CAPACITY)
  {
    WithoutSplit(old_, w, id);
    WithoutFacts(w, id);
    assert Without(old_ + w, id) + [id] == Without(old_, id) + (w + [id]);
    LastOfAppend(Without(old_, id), w + [id], CAPACITY);
  }

  lemma TouchLast(r: seq<string>, id: string)
    requires NoDup(r)
    ensures Touch(LastOf(r, CAPACITY), id) == LastOf(Without(r, id) + [id], CAPACITY)
  {
    var w := LastOf(r, CAPACITY);
    var old_ := r[..|r| - |w|];
    assert r == old_ + w;
    if id in w {
      TouchHit(old_, w, id);
    } else {
      TouchMiss(old_, w, id);
    }
  }

  /** After any sequence of ids the keys are, in order, the last 128 distinct ids by latest occurrence. */
  lemma {:induction false} WindowIsLastDistinct(ids: seq<string>)
    ensures Window(ids) == LastOf(Recency(ids), CAPACITY)
    ensures ByLatest(Recency(ids), ids)
  {
    RecencyIsByLatest(ids);
    if ids != [] {
      WindowIsLastDistinct(ids[..|ids| - 1]);
      TouchLast(Recency(ids[..|ids| - 1]), ids[|ids| - 1]);
    }
  }

  function Elements(s: seq<string>): set<string> {
    set x | x in s
  }

  lemma {:induction false} NoDupCardinality(s: seq<string>)
    requires NoDup(s)
    ensures |Elements(s)| == |s|
  {
    if s != [] {
      NoDupCardinality(s[1..]);
      assert Elements(s) == Elements(s[1..]) + {s[0]};
    }
  }

  /** The ids that came after the last occurrence of x. */
  function Since(ids: seq<string>, x: string): set<string> {
    Elements(ids[LastIndex(ids, x) + 1..])
  }

  lemma AfterPosition(r: seq<string>, ids: seq<string>, p: nat)
    requires ByLatest(r, ids) && p < |r|
    ensures Since(ids, r[p]) == Elements(r[p + 1..])
  {
    var m := LastIndex(ids, r[p]);
    var late, newer := ids[m + 1..], r[p + 1..];
    forall y | y in late
      ensures y in newer
    {
      var k :| 0 <= k < |late| && late[k] == y;
      assert ids[m + 1 + k] == y && y in ids;
      var q :| 0 <= q < |r| && r[q] == y;
      assert LastIndex(ids, y) >= m + 1 + k;
      assert q > p;
      assert newer[q - p - 1] == y;
    }
    forall y | y in newer
      ensures y in late
    {
      var q :| 0 <= q < |newer| && newer[q] == y;
      assert r[p + 1 + q] == y && y in r;
      assert late[LastIndex(ids, y) - m - 1] == y;
    }
  }

  /** An id is dropped as a duplicate exactly when it came before and fewer than 128 distinct other ids came since. */
  lemma DuplicateIff(ids: seq<string>, x: string)
    ensures x in Window(ids) <==> x in ids && |Since(ids, x)| < CAPACITY
    ensures x in ids ==> x !in Since(ids, x)
  {
    WindowIsLastDistinct(ids);
    var r := Recency(ids);
    if x in ids {
      var p :| 0 <= p < |r| && r[p] == x;
      AfterPosition(r, ids, p);
      assert NoDup(r[p + 1..]);
      NoDupCardinality(r[p + 1..]);
      InLastOf(r, p, CAPACITY);
    } else {
      assert forall k :: 0 <= k < |Window(ids)| ==> Window(ids)[k] in r;
    }
  }

  lemma InLastOf(r: seq<string>, p: nat, n: nat)
    requires NoDup(r) && p < |r|
    ensures r[p] in LastOf(r, n) <==> |r| - p <= n
  {
    var w := LastOf(r, n);
    var m := |r| - |w|;
    assert forall k :: 0 <= k < |w| ==> w[k] == r[m + k];
    if p >= m {
      assert w[p - m] == r[p];
    }
  }

  // ----- the router

  /** A decoded record: an XMTP message with its id, a chain event, or one that does not decode. */
  datatype Record = Message(id: string) | Chain | Undecodable

  /** The message ids routed on one subdomain. */
  function IdsOf(routed: seq<(string, Record)>, sub: string): seq<string> {
    if routed == [] then []
    else
      var last := routed[|routed| - 1];
      IdsOf(routed[..|routed| - 1], sub) + (if last.0 == sub && last.1.Message? then [last.1.id] else [])
  }

  /** A record is handed on unless it does not decode or its id counts as a duplicate. */
  predicate HandsOn(before: seq<(string, Record)>, sub: string, rec: Record) {
    !rec.Undecodable? && (rec.Message? ==> rec.id !in Window(IdsOf(before, sub)))
  }

  /** How many records of the subdomain were handed on. */
  function Handled(routed: seq<(string, Record)>, sub: string): nat {
    if routed == [] then 0
    else
      var before, last := routed[..|routed| - 1], routed[|routed| - 1];
      Handled(before, sub) + (if last.0 == sub && HandsOn(before, sub, last.1) then 1 else 0)
  }

  /** One more record: what the subdomain's keys and count should become. */
  lemma OneMore(routed: seq<(string, Record)>, to: string, rec: Record, sub: string)
    ensures Window(IdsOf(routed + [(to, rec)], sub))
         == if to == sub && rec.Message? then Touch(Window(IdsOf(routed, sub)), rec.id) else Window(IdsOf(routed, sub))
    ensures Handled(routed + [(to, rec)], sub) == Handled(routed, sub) + (if to == sub && HandsOn(routed, sub, rec) then 1 else 0)
  {
    assert (routed + [(to, rec)])[..|routed|] == routed;
    var ids := IdsOf(routed, sub);
    if to == sub && rec.Message? {
      assert (ids + [rec.id])[..|ids|] == ids;
    } else {
      assert ids + [] == ids;
    }
  }

  class EventRouter {
    var seenXmtp: map<string, seq<string>>
    var eventsSeen: map<string, nat>
    ghost var routed: seq<(string, Record)>

    function Keys(subdomain: string): seq<string>
      reads this
    {
      if subdomain in seenXmtp then seenXmtp[subdomain] else []
    }

    function EventsSeen(subdomain: string): nat
      reads this
    {
      if subdomain in eventsSeen then eventsSeen[subdomain] else 0
    }

    /** Every subdomain has its own filter over its own ids, and counts exactly what was handed on. */
    ghost predicate Valid()
      reads this
    {
      forall sub :: Keys(sub) == Window(IdsOf(routed, sub)) && EventsSeen(sub) == Handled(routed, sub)
    }

    constructor ()
      ensures Valid() && routed == []
    {
      seenXmtp := map[];
      eventsSeen := map[];
      routed := [];
    }

    /** `route`; the result says whether the record reached a handler. */
    method Route(subdomain: string, rec: Record) returns (handled: bool)
      requires Valid()
      modifies this
      ensures Valid() && routed == old(routed) + [(subdomain, rec)]
      ensures handled <==> HandsOn(old(routed), subdomain, rec)
    {
      handled := !rec.Undecodable?;
      if rec.Message? {
        handled := Dedupe(subdomain, rec.id);
      }
      if handled {
        eventsSeen := eventsSeen[subdomain := EventsSeen(subdomain) + 1];
      }
      routed := routed + [(subdomain, rec)];
      forall sub: string
        ensures Keys(sub) == Window(IdsOf(routed, sub)) && EventsSeen(sub) == Handled(routed, sub)
      {
        OneMore(old(routed), subdomain, rec, sub);
      }
    }

    /** The duplicate filter: true when the id is new, and then the keys grow (and lose the oldest past the capacity). */
    method Dedupe(subdomain: string, id: string) returns (isNew: bool)
      modifies this`seenXmtp
      ensures isNew <==> id !in old(Keys(subdomain))
      ensures Keys(subdomain) == Touch(old(Keys(subdomain)), id)
      ensures forall sub :: sub != subdomain ==> Keys(sub) == old(Keys(sub))
    {
      var seen := Keys(subdomain);
      if id in seen {
        seenXmtp := seenXmtp[subdomain := Without(seen, id) + [id]];
        return false;
      }
      seen := seen + [id];
      if |seen| > CAPACITY {
        seen := seen[1..];
      }
      seenXmtp := seenXmtp[subdomain := seen];
      return true;
    }
  }
}
