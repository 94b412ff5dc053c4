/** From a pitch to a draft request (sherwood_monitor/telegram/flow.py).
    Each public method of PitchFlow is the code between two awaits, so any order of method calls is an interleaving of any
    number of messages, reactions, host lookups and callbacks. A pitch object is named by its place in `pitches`. */
module Flow {
  import opened Text
  import opened Heard

  /** A message; the last five fields are what the text patterns find in it (tickers upper-cased, @handles lower-cased). */
  datatype Message = Message(
    chat: int,
    id: int,
    user: Option<int>,
    isBot: bool,
    handle: string,
    text: string,
    mentionsBot: bool,
    replyTo: Option<int>,
    replyToBot: bool,
    isCommand: bool,
    fireOnly: bool,
    shipIt: bool,
    tradeIdea: bool,
    tickers: set<string>,
    handles: set<string>)

  datatype ReactionChange = ReactionChange(chat: int, message: int, user: Option<int>, isBot: bool, had: bool, has: bool)

  datatype Pitch = Pitch(
    chat: int,
    messageId: int,
    authorId: int,
    authorName: string,
    text: string,
    tickers: set<string>,
    createdAt: real,
    riffIds: set<int>,
    reactionFires: map<int, set<int>>,
    replyFires: set<int>,
    drafted: bool)

  datatype Trigger = Fire | ShipIt

  /** Failed: the callback raised. Cancelled: its task was cancelled, which the handler does not catch. */
  datatype Phase = Running | Accepted | Failed | Cancelled

  /** One DraftRequested event and the callback it was handed to. */
  datatype Callback = Callback(pitch: nat, trigger: Trigger, triggeredBy: int, fireCount: nat, phase: Phase)

  /** What one input said about a pitch: a fire reply (source None), or a reaction set or taken back on a message. */
  datatype Mark = Mark(pitch: nat, user: int, source: Option<int>, on: bool, human: bool, authorized: bool)

  /** `fire_users`. */
  function FireUsers(p: Pitch): set<int> {
    p.replyFires + (set m, u | m in p.reactionFires.Keys && u in p.reactionFires[m] :: u) - {p.authorId}
  }

  predicate FiredAt(p: Pitch, user: int, source: Option<int>) {
    match source
    case None => user in p.replyFires
    case Some(m) => m in p.reactionFires && user in p.reactionFires[m]
  }

  /** The last thing the authorized person `user` said through `source` was a fire. */
  predicate Latest(marks: seq<Mark>, pitch: nat, user: int, source: Option<int>) {
    if marks == [] then false
    else
      var last := marks[|marks| - 1];
      if last.pitch == pitch && last.user == user && last.source == source then last.on && last.human && last.authorized
      else Latest(marks[..|marks| - 1], pitch, user, source)
  }

  /** The authorized people, other than the author, who have a fire standing on the pitch or on one of its riffs. */
  ghost function Standing(marks: seq<Mark>, pitch: nat, author: int): set<int> {
    set k | 0 <= k < |marks| && marks[k].user != author && (exists source :: Latest(marks, pitch, marks[k].user, source)) ::
      marks[k].user
  }

  // ----- what the flow keeps, part by part

  /** Every known message id is a pitch's own message or one of its riffs, in the pitch's chat. */
  predicate IndexOk(pitches: seq<Pitch>, byMsg: map<(int, int), nat>) {
    forall k :: k in byMsg ==>
      byMsg[k] < |pitches| && pitches[byMsg[k]].chat == k.0
      && (pitches[byMsg[k]].messageId == k.1 || k.1 in pitches[byMsg[k]].riffIds)
  }

  predicate OpenOk(pitches: seq<Pitch>, open: map<int, seq<nat>>) {
    forall chat :: chat in open ==> ListOk(pitches, open[chat], chat)
  }

  predicate ListOk(pitches: seq<Pitch>, list: seq<nat>, chat: int) {
    && (forall i :: 0 <= i < |list| ==> list[i] < |pitches| && pitches[list[i]].chat == chat)
    && (forall i, j :: 0 <= i < j < |list| ==> list[i] < list[j])
  }

  ghost predicate FiresOk(pitches: seq<Pitch>, marks: seq<Mark>) {
    && (forall k :: 0 <= k < |marks| ==> marks[k].pitch < |pitches|)
    && (forall p, u, source :: 0 <= p < |pitches| ==> FiredAt(pitches[p], u, source) == Latest(marks, p, u, source))
  }

  predicate Live(calls: seq<Callback>, p: nat) {
    exists i :: 0 <= i < |calls| && calls[i].pitch == p && calls[i].phase != Failed
  }

  /** Of the callbacks of one pitch all but the last have failed; a pitch is drafted while its last one has not. */
  predicate CallsOk(calls: seq<Callback>, pitches: seq<Pitch>) {
    && (forall i :: 0 <= i < |calls| ==> calls[i].pitch < |pitches|)
    && (forall i, j :: 0 <= i < j < |calls| && calls[i].pitch == calls[j].pitch ==> calls[i].phase == Failed)
    && (forall p :: 0 <= p < |pitches| ==> (pitches[p].drafted <==> Live(calls, p)))
  }

  /** Each event counts the people whose fire was standing when it was emitted (after the first `backing[i]` marks); a
      fire event has at least the threshold of them. */
  ghost predicate BackingOk(calls: seq<Callback>, backing: seq<nat>, pitches: seq<Pitch>, marks: seq<Mark>, threshold: int) {
    && |backing| == |calls|
    && (forall i :: 0 <= i < |calls| ==>
          && backing[i] <= |marks| && calls[i].pitch < |pitches|
          && calls[i].fireCount == |Standing(marks[..backing[i]], calls[i].pitch, pitches[calls[i].pitch].authorId)|
          && (calls[i].trigger == Fire ==> calls[i].fireCount >= threshold))
  }

  /** A pitch keeps where and when it was made, by whom and what it says, and only gains riffs. */
  predicate Keeps(a: seq<Pitch>, b: seq<Pitch>) {
    |a| <= |b| && forall i :: 0 <= i < |a| ==> SamePitch(a[i], b[i])
  }

  predicate SamePitch(p: Pitch, q: Pitch) {
    && q.chat == p.chat && q.messageId == p.messageId && q.authorId == p.authorId && q.authorName == p.authorName
    && q.text == p.text && q.tickers == p.tickers && q.createdAt == p.createdAt && p.riffIds <= q.riffIds
  }

  lemma KeepsOn(a: seq<Pitch>, b: seq<Pitch>, c: seq<Pitch>)
    requires Keeps(a, b) && Keeps(b, c)
    ensures Keeps(a, c)
  {
    forall i | 0 <= i < |a|
      ensures SamePitch(a[i], c[i])
    {
      assert SamePitch(a[i], b[i]) && SamePitch(b[i], c[i]);
    }
  }

  lemma IndexKept(a: seq<Pitch>, b: seq<Pitch>, byMsg: map<(int, int), nat>, open: map<int, seq<nat>>)
    requires IndexOk(a, byMsg) && OpenOk(a, open) && Keeps(a, b)
    ensures IndexOk(b, byMsg) && OpenOk(b, open)
  {
    forall chat | chat in open
      ensures ListOk(b, open[chat], chat)
    {
      assert ListOk(a, open[chat], chat);
    }
  }

  lemma ListAdds(pitches: seq<Pitch>, list: seq<nat>, pt: Pitch)
    requires ListOk(pitches, list, pt.chat)
    ensures ListOk(pitches + [pt], list + [|pitches|], pt.chat)
  {}

  /** A pitch joins the end of its chat's list. */
  lemma OpenAdds(pitches: seq<Pitch>, open: map<int, seq<nat>>, pt: Pitch)
    requires OpenOk(pitches, open)
    ensures OpenOk(pitches + [pt], open[pt.chat := (if pt.chat in open then open[pt.chat] else []) + [|pitches|]])
  {
    IndexKept(pitches, pitches + [pt], map[], open);
    var list := if pt.chat in open then open[pt.chat] else [];
    assert ListOk(pitches, list, pt.chat);
    ListAdds(pitches, list, pt);
  }

  lemma MessageAdds(pitches: seq<Pitch>, byMsg: map<(int, int), nat>, pt: Pitch)
    requires IndexOk(pitches, byMsg)
    ensures IndexOk(pitches + [pt], byMsg[(pt.chat, pt.messageId) := |pitches|])
  {
    IndexKept(pitches, pitches + [pt], byMsg, map[]);
  }

  lemma BackingKept(calls: seq<Callback>, backing: seq<nat>, a: seq<Pitch>, b: seq<Pitch>, marks: seq<Mark>, more: seq<Mark>, threshold: int)
    requires BackingOk(calls, backing, a, marks, threshold) && Keeps(a, b)
    ensures BackingOk(calls, backing, b, marks + more, threshold)
  {
    assert forall i :: 0 <= i < |calls| ==> (marks + more)[..backing[i]] == marks[..backing[i]];
  }

  // ----- fires

  lemma {:induction false} LatestMarked(marks: seq<Mark>, p: nat, u: int, source: Option<int>) returns (k: nat)
    requires Latest(marks, p, u, source)
    ensures k < |marks| && marks[k].pitch == p && marks[k].user == u && marks[k].source == source
  {
    var n := |marks| - 1;
    if marks[n].pitch == p && marks[n].user == u && marks[n].source == source {
      k := n;
    } else {
      k := LatestMarked(marks[..n], p, u, source);
    }
  }

  /** The fire sets hold exactly the standing fires. */
  lemma FireUsersStand(pitches: seq<Pitch>, marks: seq<Mark>, p: nat)
    requires FiresOk(pitches, marks) && p < |pitches|
    ensures FireUsers(pitches[p]) == Standing(marks, p, pitches[p].authorId)
  {
    var pt := pitches[p];
    forall u
      ensures u in FireUsers(pt) <==> u in Standing(marks, p, pt.authorId)
    {
      if u in FireUsers(pt) {
        var source: Option<int> := None;
        if u !in pt.replyFires {
          var m :| m in pt.reactionFires && u in pt.reactionFires[m];
          source := Some(m);
        }
        assert FiredAt(pt, u, source);
        var k := LatestMarked(marks, p, u, source);
      }
      if u in Standing(marks, p, pt.authorId) {
        var source :| Latest(marks, p, u, source);
        assert FiredAt(pt, u, source);
      }
    }
  }

  /** One more mark, recorded in the fire set it speaks of. */
  lemma MarkKeepsFires(pitches: seq<Pitch>, marks: seq<Mark>, m: Mark, pt: Pitch)
    requires FiresOk(pitches, marks) && m.pitch < |pitches| && m.human && m.authorized
    requires forall u, source :: FiredAt(pt, u, source) ==
               if u == m.user && source == m.source then m.on else FiredAt(pitches[m.pitch], u, source)
    ensures FiresOk(pitches[m.pitch := pt], marks + [m])
  {
    assert (marks + [m])[..|marks|] == marks;
  }

  lemma {:induction false} NoMarks(marks: seq<Mark>, p: nat, u: int, source: Option<int>)
    requires forall k :: 0 <= k < |marks| ==> marks[k].pitch < p
    ensures !Latest(marks, p, u, source)
  {
    if marks != [] {
      NoMarks(marks[..|marks| - 1], p, u, source);
    }
  }

  lemma NewPitchKeepsFires(pitches: seq<Pitch>, marks: seq<Mark>, pt: Pitch)
    requires FiresOk(pitches, marks) && pt.replyFires == {} && pt.reactionFires == map[]
    ensures FiresOk(pitches + [pt], marks)
  {
    forall u, source
      ensures !Latest(marks, |pitches|, u, source)
    {
      NoMarks(marks, |pitches|, u, source);
    }
  }

  lemma SameFires(a: seq<Pitch>, b: seq<Pitch>, marks: seq<Mark>)
    requires FiresOk(a, marks) && |a| == |b|
    requires forall i :: 0 <= i < |a| ==> a[i].replyFires == b[i].replyFires && a[i].reactionFires == b[i].reactionFires
    ensures FiresOk(b, marks)
  {
    forall p, u, source | 0 <= p < |b|
      ensures FiredAt(b[p], u, source) == Latest(marks, p, u, source)
    {
      assert FiredAt(a[p], u, source) == Latest(marks, p, u, source);
    }
  }

  // ----- callbacks

  lemma SameDrafted(calls: seq<Callback>, a: seq<Pitch>, b: seq<Pitch>)
    requires CallsOk(calls, a) && |a| <= |b|
    requires forall i :: 0 <= i < |a| ==> a[i].drafted == b[i].drafted
    requires forall i :: |a| <= i < |b| ==> !b[i].drafted
    ensures CallsOk(calls, b)
  {}

  lemma EmitKeepsCalls(calls: seq<Callback>, pitches: seq<Pitch>, c: Callback)
    requires CallsOk(calls, pitches) && c.pitch < |pitches| && !pitches[c.pitch].drafted && c.phase != Failed
    ensures CallsOk(calls + [c], pitches[c.pitch := pitches[c.pitch].(drafted := true)])
  {
    var cs := calls + [c];
    assert !Live(calls, c.pitch);
    forall p | 0 <= p < |pitches|
      ensures Live(cs, p) <==> p == c.pitch || Live(calls, p)
    {
      assert cs[|calls|] == c;
      assert forall i :: 0 <= i < |calls| ==> cs[i] == calls[i];
    }
  }

  lemma EndKeepsCalls(calls: seq<Callback>, pitches: seq<Pitch>, i: nat, phase: Phase)
    requires CallsOk(calls, pitches) && i < |calls| && calls[i].phase == Running
    ensures var p := calls[i].pitch;
            CallsOk(calls[i := calls[i].(phase := phase)], pitches[p := pitches[p].(drafted := phase != Failed)])
  {
    var p := calls[i].pitch;
    var cs := calls[i := calls[i].(phase := phase)];
    forall q | 0 <= q < |pitches|
      ensures Live(cs, q) <==> if q == p then phase != Failed else Live(calls, q)
    {
      if q == p {
        assert forall j :: 0 <= j < |calls| && j != i && calls[j].pitch == p ==> calls[j].phase == Failed;
        assert cs[i].pitch == p;
      } else {
        assert forall j :: 0 <= j < |calls| && calls[j].pitch == q ==> cs[j] == calls[j];
      }
    }
  }

  /** At most one callback of a pitch is in flight and at most one was accepted, never both; what is drafted is exactly
      what has one that did not fail. */
  lemma OneDraftPerPitch(calls: seq<Callback>, pitches: seq<Pitch>, i: nat, j: nat)
    requires CallsOk(calls, pitches) && i < |calls| && j < |calls| && calls[i].pitch == calls[j].pitch
    requires calls[i].phase != Failed && calls[j].phase != Failed
    ensures i == j && pitches[calls[i].pitch].drafted
  {
    assert Live(calls, calls[i].pitch);
  }

  // ----- open pitches

  /** `keep[-n:]`; for n = 0 that is the whole list, and for n < 0 it lacks the first -n. */
  function LastN(list: seq<nat>, n: int): seq<nat> {
    if n > 0 then (if n >= |list| then list else list[|list| - n..])
    else if -n >= |list| then [] else list[-n..]
  }

  function Young(pitches: seq<Pitch>, list: seq<nat>, now: real, ttl: real): (r: seq<nat>)
    requires forall i :: 0 <= i < |list| ==> list[i] < |pitches|
    ensures forall p :: p in r <==> p in list && now - pitches[p].createdAt <= ttl
  {
    if list == [] then []
    else
      var rest := Young(pitches, list[..|list| - 1], now, ttl);
      var p := list[|list| - 1];
      assert list == list[..|list| - 1] + [p];
      if now - pitches[p].createdAt <= ttl then rest + [p] else rest
  }

  lemma {:induction false} YoungOk(pitches: seq<Pitch>, list: seq<nat>, now: real, ttl: real, chat: int)
    requires ListOk(pitches, list, chat)
    ensures ListOk(pitches, Young(pitches, list, now, ttl), chat)
  {
    if list != [] {
      YoungOk(pitches, list[..|list| - 1], now, ttl, chat);
      assert list == list[..|list| - 1] + [list[|list| - 1]];
      var rest := Young(pitches, list[..|list| - 1], now, ttl);
      forall i | 0 <= i < |rest|
        ensures rest[i] < list[|list| - 1]
      {
        assert rest[i] in list[..|list| - 1];
      }
    }
  }

  lemma LastNOk(pitches: seq<Pitch>, list: seq<nat>, n: int, chat: int)
    requires ListOk(pitches, list, chat)
    ensures ListOk(pitches, LastN(list, n), chat)
  {}

  /** The young ones of a list that come after p, and before it. */
  function Later(pitches: seq<Pitch>, list: seq<nat>, now: real, ttl: real, p: nat): set<nat> {
    set q | q in list && q < |pitches| && now - pitches[q].createdAt <= ttl && p < q
  }

  function Earlier(pitches: seq<Pitch>, list: seq<nat>, now: real, ttl: real, p: nat): set<nat> {
    set q | q in list && q < |pitches| && now - pitches[q].createdAt <= ttl && q < p
  }

  /** Whether prune keeps a pitch of the list: it is young, and with a positive cap fewer than so many young ones are newer. (A
      cap of 0 is none, and a negative one drops the oldest.) */
  predicate Stays(pitches: seq<Pitch>, list: seq<nat>, now: real, ttl: real, cap: int, p: nat) {
    && p in list && p < |pitches| && now - pitches[p].createdAt <= ttl
    && (cap > 0 ==> |Later(pitches, list, now, ttl, p)| < cap)
    && (cap < 0 ==> |Earlier(pitches, list, now, ttl, p)| >= -cap)
  }

  /** What pruning the list leaves. */
  predicate Pruned(pitches: seq<Pitch>, list: seq<nat>, kept: seq<nat>, now: real, ttl: real, cap: int) {
    forall p :: p in kept + list ==> (p in kept <==> Stays(pitches, list, now, ttl, cap, p))
  }

  lemma Fewer(a: set<nat>, b: set<nat>)
    requires a <= b
    ensures |a| <= |b|
  {
    assert b == a + (b - a);
  }

  /** Pruning again at the same time changes nothing, unless the cap is negative. */
  lemma PrunedTwice(a: seq<Pitch>, list: seq<nat>, kept: seq<nat>, b: seq<Pitch>, again: seq<nat>, now: real, ttl: real, cap: int)
    requires Pruned(a, list, kept, now, ttl, cap) && Keeps(a, b) && Pruned(b, kept, again, now, ttl, cap) && cap >= 0
    ensures Pruned(a, list, again, now, ttl, cap)
  {
    forall p | p in again + list
      ensures p in again <==> Stays(a, list, now, ttl, cap, p)
    {
      assert p in again ==> p in again + kept;
      assert p in list ==> p in kept + list;
      if p in kept {
        assert p in kept + list && p in again + kept;
        Fewer(Later(b, kept, now, ttl, p), Later(a, list, now, ttl, p));
      }
    }
  }

  predicate Rising(list: seq<nat>) {
    forall i, j :: 0 <= i < j < |list| ==> list[i] < list[j]
  }

  function Members(list: seq<nat>): set<nat> {
    set q | q in list
  }

  function Above(list: seq<nat>, p: nat): set<nat> {
    set q | q in list && p < q
  }

  function Below(list: seq<nat>, p: nat): set<nat> {
    set q | q in list && q < p
  }

  lemma {:induction false} RisingSize(list: seq<nat>)
    requires Rising(list)
    ensures |Members(list)| == |list|
  {
    if list == [] {
      assert Members(list) == {};
    } else {
      var n := |list| - 1;
      RisingSize(list[..n]);
      assert list == list[..n] + [list[n]];
      assert Members(list) == Members(list[..n]) + {list[n]};
    }
  }

  lemma AboveSize(list: seq<nat>, i: nat)
    requires Rising(list) && i < |list|
    ensures |Above(list, list[i])| == |list| - 1 - i
  {
    RisingSize(list[i + 1..]);
    forall q | q in Above(list, list[i])
      ensures q in list[i + 1..]
    {
      var k :| 0 <= k < |list| && list[k] == q;
      assert k > i && list[i + 1..][k - i - 1] == q;
    }
    assert Above(list, list[i]) == Members(list[i + 1..]);
  }

  lemma BelowSize(list: seq<nat>, i: nat)
    requires Rising(list) && i < |list|
    ensures |Below(list, list[i])| == i
  {
    RisingSize(list[..i]);
    forall q | q in Below(list, list[i])
      ensures q in list[..i]
    {
      var k :| 0 <= k < |list| && list[k] == q;
      assert k < i && list[..i][k] == q;
    }
    assert Below(list, list[i]) == Members(list[..i]);
  }

  /** Which element is the first that `keep[-n:]` has. */
  function FirstKept(size: nat, n: int): (first: nat)
    ensures first <= size
  {
    if n > 0 then (if n >= size then 0 else size - n) else if -n >= size then size else -n
  }

  lemma LastNIs(list: seq<nat>, n: int, p: nat)
    requires Rising(list)
    ensures p in LastN(list, n) <==> p in list && (n > 0 ==> |Above(list, p)| < n) && (n < 0 ==> |Below(list, p)| >= -n)
  {
    var first := FirstKept(|list|, n);
    assert LastN(list, n) == list[first..];
    if p in list {
      var i :| 0 <= i < |list| && list[i] == p;
      AboveSize(list, i);
      BelowSize(list, i);
      if i >= first {
        assert list[first..][i - first] == p;
      } else {
        assert forall k :: 0 <= k < |list[first..]| ==> list[first..][k] == list[first + k];
      }
    }
  }

  /** What prune keeps. */
  lemma KeptIs(pitches: seq<Pitch>, list: seq<nat>, now: real, ttl: real, cap: int, chat: int)
    requires ListOk(pitches, list, chat)
    ensures forall p :: p in LastN(Young(pitches, list, now, ttl), cap) <==> Stays(pitches, list, now, ttl, cap, p)
  {
    var young := Young(pitches, list, now, ttl);
    YoungOk(pitches, list, now, ttl, chat);
    forall p: nat
      ensures p in LastN(young, cap) <==> Stays(pitches, list, now, ttl, cap, p)
    {
      LastNIs(young, cap, p);
      assert Above(young, p) == Later(pitches, list, now, ttl, p);
      assert Below(young, p) == Earlier(pitches, list, now, ttl, p);
    }
  }

  /** A listed pitch that prune drops equals, as a value, none of those kept. */
  predicate Dropped(pitches: seq<Pitch>, keep: seq<nat>, p: nat) {
    p < |pitches| && forall q :: q in keep && q < |pitches| ==> pitches[q] != pitches[p]
  }

  predicate GoesWith(p: Pitch, id: int) {
    id == p.messageId || id in p.riffIds
  }

  /** A message id that goes with a dropped pitch. */
  predicate Forgotten(pitches: seq<Pitch>, list: seq<nat>, keep: seq<nat>, id: int) {
    exists i :: 0 <= i < |list| && Dropped(pitches, keep, list[i]) && GoesWith(pitches[list[i]], id)
  }

  /** Of the known messages of a chat exactly those that go with dropped pitches are forgotten. */
  ghost predicate Forgets(a: map<(int, int), nat>, b: map<(int, int), nat>, pitches: seq<Pitch>, list: seq<nat>, keep: seq<nat>, chat: int) {
    && (forall k :: k in b <==> k in a && !(k.0 == chat && Forgotten(pitches, list, keep, k.1)))
    && (forall k :: k in b ==> b[k] == a[k])
  }

  predicate Covers(p: Pitch, target: int, window: int) {
    p.messageId < target <= p.messageId + window
  }

  /** The first hit from the end, as `reversed(...)` finds it. */
  predicate LastCovering(pitches: seq<Pitch>, list: seq<nat>, target: int, window: int, r: Option<nat>)
    requires forall i :: 0 <= i < |list| ==> list[i] < |pitches|
  {
    match r
    case None => forall i :: 0 <= i < |list| ==> !Covers(pitches[list[i]], target, window)
    case Some(p) =>
      exists i :: 0 <= i < |list| && list[i] == p && Covers(pitches[p], target, window)
                  && forall j :: i < j < |list| ==> !Covers(pitches[list[j]], target, window)
  }

  /** A "ship it" that names the pitch. */
  predicate Names(msg: Message, p: Pitch) {
    || p.tickers * msg.tickers != {}
    || (p.authorName != "" && p.authorName[0] == '@' && Lower(p.authorName) in msg.handles)
  }

  predicate Candidate(pitches: seq<Pitch>, msg: Message, p: nat) {
    p < |pitches| && !pitches[p].drafted && Names(msg, pitches[p])
  }

  /** p is the one open pitch that the message names. */
  predicate OnlyNamed(pitches: seq<Pitch>, list: seq<nat>, msg: Message, p: nat) {
    p in list && Candidate(pitches, msg, p) && forall q :: q in list && Candidate(pitches, msg, q) ==> q == p
  }

  function OtherLists(chat: int, open: map<int, seq<nat>>): map<int, seq<nat>> {
    map c | c in open && c != chat :: open[c]
  }

  function OtherKnown(chat: int, byMsg: map<(int, int), nat>): map<(int, int), nat> {
    map k | k in byMsg && k.0 != chat :: byMsg[k]
  }

  predicate IsFireReply(msg: Message) {
    msg.replyTo.Some? && msg.fireOnly
  }

  /** Sent by a person whom the gateway authorizes. */
  predicate Admitted(user: Option<int>, isBot: bool, allowed: bool) {
    user.Some? && !isBot && allowed
  }

  /** The message of an admitted person opens a pitch: an idea for a trade put to the bot, and neither command, fire reply nor
      "ship it". */
  predicate Pitches(msg: Message, allowed: bool) {
    && Admitted(msg.user, msg.isBot, allowed) && !IsFireReply(msg) && !msg.shipIt
    && msg.mentionsBot && !msg.isCommand && msg.tradeIdea
  }

  /** A fresh pitch with what the message says. */
  predicate PitchOf(msg: Message, now: real, p: Pitch) {
    && msg.user == Some(p.authorId) && p.authorName == msg.handle && p.chat == msg.chat && p.messageId == msg.id
    && p.text == msg.text && p.tickers == msg.tickers && p.createdAt == now
    && p.riffIds == {} && p.replyFires == {} && p.reactionFires == map[] && !p.drafted
  }

  function WithRiff(pitches: seq<Pitch>, p: nat, id: int): seq<Pitch>
    requires p < |pitches|
  {
    pitches[p := pitches[p].(riffIds := pitches[p].riffIds + {id})]
  }

  /** Two lists of the same pitches, which may differ in their riffs only. */
  predicate SameButRiffs(a: seq<Pitch>, b: seq<Pitch>) {
    |a| == |b| && forall i :: 0 <= i < |a| ==> b[i] == a[i].(riffIds := b[i].riffIds) && a[i].riffIds <= b[i].riffIds
  }

  /** No pitch of the list has that message. */
  predicate NewTo(pitches: seq<Pitch>, list: seq<nat>, id: int) {
    forall i :: 0 <= i < |list| && list[i] < |pitches| ==> !GoesWith(pitches[list[i]], id)
  }

  /** A new pitch that is kept is known by its message. */
  lemma NewKnown(was: seq<Pitch>, pitches: seq<Pitch>, pt: Pitch, list: seq<nat>, all: seq<nat>, keep: seq<nat>,
                 before: map<(int, int), nat>, after: map<(int, int), nat>)
    requires pitches == was + [pt] && all == list + [|was|] && forall i :: 0 <= i < |list| ==> list[i] < |was|
    requires NewTo(was, list, pt.messageId) && |was| in keep
    requires (pt.chat, pt.messageId) in before && before[(pt.chat, pt.messageId)] == |was|
    requires Forgets(before, after, pitches, all, keep, pt.chat)
    ensures (pt.chat, pt.messageId) in after && after[(pt.chat, pt.messageId)] == |was|
  {
    forall i | 0 <= i < |all| && Dropped(pitches, keep, all[i])
      ensures !GoesWith(pitches[all[i]], pt.messageId)
    {
      assert pitches[|was|] == pt;
    }
  }

  lemma OtherKnownSet(chat: int, a: map<(int, int), nat>, id: int, p: nat)
    ensures OtherKnown(chat, a[(chat, id) := p]) == OtherKnown(chat, a)
  {}

  lemma OtherListsSet(chat: int, a: map<int, seq<nat>>, list: seq<nat>)
    ensures OtherLists(chat, a[chat := list]) == OtherLists(chat, a)
  {}

  lemma OtherKnownForgets(a: map<(int, int), nat>, b: map<(int, int), nat>, pitches: seq<Pitch>, list: seq<nat>, keep: seq<nat>, chat: int)
    requires Forgets(a, b, pitches, list, keep, chat)
    ensures OtherKnown(chat, b) == OtherKnown(chat, a)
  {}

  lemma ForgottenOneMore(pitches: seq<Pitch>, list: seq<nat>, keep: seq<nat>, i: nat, id: int)
    requires i < |list|
    ensures Forgotten(pitches, list[..i + 1], keep, id) <==>
              Forgotten(pitches, list[..i], keep, id) || (Dropped(pitches, keep, list[i]) && GoesWith(pitches[list[i]], id))
  {
    var more := list[..i + 1];
    assert forall j :: 0 <= j < i ==> more[j] == list[..i][j];
    assert more[i] == list[i];
  }

  /** The loop of `_prune` over the dropped pitches. */
  method Forget(pitches: seq<Pitch>, list: seq<nat>, keep: seq<nat>, chat: int, byMsg: map<(int, int), nat>)
    returns (r: map<(int, int), nat>)
    requires ListOk(pitches, list, chat)
    ensures forall k :: k in r <==> k in byMsg && !(k.0 == chat && Forgotten(pitches, list, keep, k.1))
    ensures forall k :: k in r ==> r[k] == byMsg[k]
  {
    r := byMsg;
    for i := 0 to |list|
      invariant forall k :: k in r <==> k in byMsg && !(k.0 == chat && Forgotten(pitches, list[..i], keep, k.1))
      invariant forall k :: k in r ==> r[k] == byMsg[k]
    {
      ghost var before := r;
      var dropped := Dropped(pitches, keep, list[i]);
      if dropped {
        r := r - {(chat, pitches[list[i]].messageId)} - (set id | id in pitches[list[i]].riffIds :: (chat, id));
      }
      forall k
        ensures k in r <==> k in byMsg && !(k.0 == chat && Forgotten(pitches, list[..i + 1], keep, k.1))
      {
        ForgottenOneMore(pitches, list, keep, i, k.1);
      }
    }
    assert list[..|list|] == list;
  }

  method FindCovering(pitches: seq<Pitch>, list: seq<nat>, target: int, window: int) returns (r: Option<nat>)
    requires forall i :: 0 <= i < |list| ==> list[i] < |pitches|
    ensures LastCovering(pitches, list, target, window, r)
  {
    for i := |list| downto 0
      invariant forall j :: i <= j < |list| ==> !Covers(pitches[list[j]], target, window)
    {
      if pitches[list[i]].messageId < target <= pitches[list[i]].messageId + window {
        return Some(list[i]);
      }
    }
    return None;
  }

  lemma CoveringListed(pitches: seq<Pitch>, list: seq<nat>, target: int, window: int, p: nat)
    requires forall i :: 0 <= i < |list| ==> list[i] < |pitches|
    requires LastCovering(pitches, list, target, window, Some(p))
    ensures p in list
  {}

  /** The newest open pitch of the chat whose window covers the message, if there is one. */
  predicate Found(pitches: seq<Pitch>, list: seq<nat>, chat: int, target: int, window: int, r: Option<nat>) {
    ListOk(pitches, list, chat) && LastCovering(pitches, list, target, window, r)
  }

  lemma FoundKept(a: seq<Pitch>, b: seq<Pitch>, list: seq<nat>, chat: int, target: int, window: int, r: Option<nat>)
    requires Keeps(a, b) && Found(a, list, chat, target, window, r)
    ensures Found(b, list, chat, target, window, r)
  {
    assert forall i :: 0 <= i < |list| ==> Covers(a[list[i]], target, window) == Covers(b[list[i]], target, window);
  }

  function WithFire(p: Pitch, user: int, source: Option<int>, on: bool): Pitch {
    match source
    case None => if on then p.(replyFires := p.replyFires + {user}) else p
    case Some(m) =>
      var users := if m in p.reactionFires then p.reactionFires[m] else {};
      p.(reactionFires := p.reactionFires[m := if on then users + {user} else users - {user}])
  }

  /** The open pitches that the message names; a match only when there is exactly one. */
  method FindNamed(pitches: seq<Pitch>, list: seq<nat>, msg: Message, chat: int) returns (r: Option<nat>)
    requires ListOk(pitches, list, chat)
    ensures r.Some? ==> OnlyNamed(pitches, list, msg, r.value)
    ensures r.None? ==> forall p :: p in list ==> !OnlyNamed(pitches, list, msg, p)
  {
    var named: seq<nat> := [];
    for i := 0 to |list|
      invariant forall k :: 0 <= k < |named| ==> named[k] in list[..i]
      invariant forall k, l :: 0 <= k < l < |named| ==> named[k] != named[l]
      invariant forall p :: p in named <==> p in list[..i] && Candidate(pitches, msg, p)
    {
      assert list[..i + 1] == list[..i] + [list[i]];
      var p := pitches[list[i]];
      if !p.drafted
         && (p.tickers * msg.tickers != {} || (p.authorName != "" && p.authorName[0] == '@' && Lower(p.authorName) in msg.handles)) {
        assert list[i] !in list[..i];
        named := named + [list[i]];
      }
    }
    assert list[..|list|] == list;
    if |named| == 1 {
      assert forall p :: p in named ==> p == named[0];
      return Some(named[0]);
    }
    if |named| > 1 {
      assert named[0] in named && named[1] in named;
    }
    return None;
  }

  /** A pitch made just now is kept, unless the cap is negative. */
  lemma NewStays(pitches: seq<Pitch>, list: seq<nat>, p: nat, now: real, ttl: real, cap: int)
    requires p < |pitches| && pitches[p].createdAt == now && ttl >= 0.0 && cap >= 0
    requires forall i :: 0 <= i < |list| ==> list[i] < p
    ensures Stays(pitches, list + [p], now, ttl, cap, p)
  {
    var all := list + [p];
    assert all[|list|] == p;
    assert Later(pitches, all, now, ttl, p) == {};
  }

  lemma RiffKeeps(pitches: seq<Pitch>, p: nat, id: int)
    requires p < |pitches|
    ensures Keeps(pitches, WithRiff(pitches, p, id))
  {}

  lemma FireKeeps(pitches: seq<Pitch>, p: nat, user: int, source: Option<int>, on: bool)
    requires p < |pitches|
    ensures Keeps(pitches, pitches[p := WithFire(pitches[p], user, source, on)])
  {}

  lemma AppendKeeps(pitches: seq<Pitch>, pt: Pitch)
    ensures Keeps(pitches, pitches + [pt])
  {}

  lemma KeptNew(list: seq<nat>, p: nat, kept: seq<nat>)
    ensures p in kept + (list + [p])
  {
    assert (kept + (list + [p]))[|kept| + |list|] == p;
  }

  class PitchFlow {
    const threshold: int
    const ttl: real
    const window: int
    const maxPitches: int
    const listening: bool   // a draft callback is wired

    var pitches: seq<Pitch>               // every pitch so far
    var open: map<int, seq<nat>>          // the open ones of a chat, oldest first
    var byMsg: map<(int, int), nat>
    var seenOrder: map<int, seq<int>>     // the last 1000 messages of people in a chat
    var seenHuman: map<int, set<int>>
    var cards: map<int, set<int>>
    var calls: seq<Callback>              // every event emitted, with what became of its callback
    ghost var said: map<int, seq<int>>    // every message that an authorized person sent to a chat
    ghost var marks: seq<Mark>            // every fire set or taken back
    ghost var backing: seq<nat>           // how many marks there were when each event was emitted

    ghost predicate Valid()
      reads this
    {
      && IndexOk(pitches, byMsg)
      && OpenOk(pitches, open)
      && FiresOk(pitches, marks)
      && CallsOk(calls, pitches)
      && BackingOk(calls, backing, pitches, marks, threshold)
      && SeenOk(said, seenOrder, seenHuman)
    }

    constructor (threshold: int, ttl: real, window: int, maxPitches: int, listening: bool)
      ensures Valid() && pitches == [] && calls == [] && marks == [] && said == map[] && cards == map[]
      ensures this.threshold == threshold && this.ttl == ttl && this.window == window && this.maxPitches == maxPitches
      ensures this.listening == listening
    {
      this.threshold, this.ttl, this.window, this.maxPitches, this.listening := threshold, ttl, window, maxPitches, listening;
      pitches, open, byMsg, seenOrder, seenHuman, cards := [], map[], map[], map[], map[], map[];
      calls, marks, backing, said := [], [], [], map[];
    }

    function Listed(chat: int): seq<nat>
      reads this`open
    {
      if chat in open then open[chat] else []
    }

    /** What prune keeps of a chat's list. */
    function Kept(chat: int, now: real): seq<nat>
      requires OpenOk(pitches, open)
      reads this`pitches, this`open
    {
      if chat in open then
        assert ListOk(pitches, open[chat], chat);
        LastN(Young(pitches, open[chat], now, ttl), maxPitches)
      else []
    }

    ghost function Said(chat: int): seq<int>
      reads this`said
    {
      if chat in said then said[chat] else []
    }

    /** The open pitches and the known messages of the other chats. */
    ghost function Elsewhere(chat: int): (map<int, seq<nat>>, map<(int, int), nat>)
      reads this`open, this`byMsg
    {
      (OtherLists(chat, open), OtherKnown(chat, byMsg))
    }

    predicate IsCard(chat: int, id: int)
      reads this`cards
    {
      chat in cards && id in cards[chat]
    }

    function Lookup(chat: int, id: int): Option<nat>
      reads this`byMsg
    {
      if (chat, id) in byMsg then Some(byMsg[(chat, id)]) else None
    }

    /** `_prune`: old pitches and those past the cap are closed, and the ids that go with them are forgotten. */
    method Prune(chat: int, now: real)
      requires Valid()
      modifies this`open, this`byMsg
      ensures Valid() && Listed(chat) == old(Kept(chat, now))
      ensures Pruned(pitches, old(Listed(chat)), Listed(chat), now, ttl, maxPitches)
      ensures forall c :: c in open <==> c in old(open)
      ensures Elsewhere(chat) == old(Elsewhere(chat))
      ensures Forgets(old(byMsg), byMsg, pitches, old(Listed(chat)), Listed(chat), chat)
    {
      if chat in open {
        var list := open[chat];
        assert ListOk(pitches, list, chat);
        var keep := Kept(chat, now);
        YoungOk(pitches, list, now, ttl, chat);
        LastNOk(pitches, Young(pitches, list, now, ttl), maxPitches, chat);
        KeptIs(pitches, list, now, ttl, maxPitches, chat);
        byMsg := Forget(pitches, list, keep, chat, byMsg);
        OtherKnownForgets(old(byMsg), byMsg, pitches, list, keep, chat);
        OtherListsSet(chat, open, keep);
        open := open[chat := keep];
      }
    }

    /** `_pitch_for_target`: the pitch a message belongs to, if any. A message that no person is known to have sent, just
        after an open pitch, becomes that pitch's riff. */
    method Target(chat: int, target: int, targetIsBot: bool, now: real) returns (r: Option<nat>)
      requires Valid()
      modifies this`pitches, this`open, this`byMsg
      ensures Valid() && SameButRiffs(old(pitches), pitches) && r == Lookup(chat, target)
      ensures (old(Lookup(chat, target)).Some? || old(NoRiff(chat, target, targetIsBot))) ==>
                pitches == old(pitches) && open == old(open) && byMsg == old(byMsg)
      ensures old(Lookup(chat, target)).None? && !old(NoRiff(chat, target, targetIsBot)) ==>
                && Pruned(old(pitches), old(Listed(chat)), Listed(chat), now, ttl, maxPitches)
                && Found(pitches, Listed(chat), chat, target, window, r)
                && (if r.None? then pitches == old(pitches)
                    else r.value < |old(pitches)| && pitches == WithRiff(old(pitches), r.value, target))
      ensures Elsewhere(chat) == old(Elsewhere(chat))
    {
      r := Lookup(chat, target);
      if r.None? && !(chat in cards && target in cards[chat])
         && (targetIsBot || !(chat in seenHuman && target in seenHuman[chat])) {
        r := Riff(chat, target, now);
      }
    }

    /** The loop of `_pitch_for_target` over the open pitches. */
    method Riff(chat: int, target: int, now: real) returns (r: Option<nat>)
      requires Valid() && Lookup(chat, target).None?
      modifies this`pitches, this`open, this`byMsg
      ensures Valid() && r == Lookup(chat, target)
      ensures Pruned(old(pitches), old(Listed(chat)), Listed(chat), now, ttl, maxPitches)
      ensures if r.None? then pitches == old(pitches)
              else r.value < |old(pitches)| && pitches == WithRiff(old(pitches), r.value, target)
      ensures Elsewhere(chat) == old(Elsewhere(chat))
      ensures Found(pitches, Listed(chat), chat, target, window, r)
    {
      Prune(chat, now);
      r := Search(chat, target);
    }

    method Search(chat: int, target: int) returns (r: Option<nat>)
      requires Valid() && Lookup(chat, target).None?
      modifies this`pitches, this`byMsg
      ensures Valid() && r == Lookup(chat, target)
      ensures if r.None? then pitches == old(pitches)
              else r.value < |old(pitches)| && pitches == WithRiff(old(pitches), r.value, target)
      ensures Elsewhere(chat) == old(Elsewhere(chat))
      ensures Found(pitches, Listed(chat), chat, target, window, r)
    {
      var list := Listed(chat);
      assert ListOk(pitches, list, chat);
      r := FindCovering(pitches, list, target, window);
      if r.Some? {
        CoveringListed(pitches, list, target, window, r.value);
        Register(chat, r.value, target);
        FoundKept(old(pitches), pitches, list, chat, target, window, r);
      }
    }

    /** A card of the bot, or a message that a person is remembered to have sent, unless it is known to be a bot's. */
    ghost predicate NoRiff(chat: int, target: int, targetIsBot: bool)
      reads this`cards, this`said
    {
      IsCard(chat, target) || (!targetIsBot && Remembered(Said(chat), target))
    }

    /** A message becomes a riff of the pitch. */
    method Register(chat: int, p: nat, id: int)
      requires Valid() && p < |pitches| && pitches[p].chat == chat
      modifies this`pitches, this`byMsg
      ensures Valid() && pitches == WithRiff(old(pitches), p, id)
      ensures byMsg == old(byMsg)[(chat, id) := p] && Elsewhere(chat) == old(Elsewhere(chat))
    {
      ghost var before := pitches;
      pitches := WithRiff(pitches, p, id);
      RiffKeeps(before, p, id);
      OtherKnownSet(chat, byMsg, id, p);
      byMsg := byMsg[(chat, id) := p];
      IndexKept(before, pitches, old(byMsg), open);
      SameFires(before, pitches, marks);
      SameDrafted(calls, before, pitches);
      BackingKept(calls, backing, before, pitches, marks, [], threshold);
      assert marks + [] == marks;
    }

    /** `link_riff`: only for a pitch's own message. */
    method LinkRiff(chat: int, pitchMessage: int, riff: int) returns (linked: bool)
      requires Valid()
      modifies this`pitches, this`byMsg
      ensures Valid()
      ensures linked <==> old(Lookup(chat, pitchMessage)).Some?
                          && old(pitches)[old(Lookup(chat, pitchMessage)).value].messageId == pitchMessage
      ensures linked ==> pitches == WithRiff(old(pitches), old(Lookup(chat, pitchMessage)).value, riff)
                         && byMsg == old(byMsg)[(chat, riff) := old(Lookup(chat, pitchMessage)).value]
      ensures !linked ==> pitches == old(pitches) && byMsg == old(byMsg)
    {
      var p := Lookup(chat, pitchMessage);
      if p.None? || pitches[p.value].messageId != pitchMessage {
        return false;
      }
      Register(chat, p.value, riff);
      return true;
    }

    /** `note_bot_card`. */
    method NoteBotCard(chat: int, id: int)
      requires Valid()
      modifies this`cards
      ensures Valid() && chat in cards && id in cards[chat]
      ensures forall c, m :: c in cards && m in cards[c] <==> (c in old(cards) && m in old(cards)[c]) || (c == chat && m == id)
    {
      cards := cards[chat := (if chat in cards then cards[chat] else {}) + {id}];
    }

    /** `_seen`: one more message of a person. */
    method Seen(chat: int, id: int)
      requires Valid()
      modifies this`seenOrder, this`seenHuman, this`said
      ensures Valid() && said == old(said)[chat := old(Said(chat)) + [id]]
    {
      SeenStep(said, seenOrder, seenHuman, chat, id);
      ghost var before := Said(chat);
      var order := if chat in seenOrder then seenOrder[chat] else [];
      var ids := if chat in seenHuman then seenHuman[chat] else {};
      if |order| >= 1000 {
        ids := ids - {order[0]};
        order := order[1..];
      }
      seenOrder := seenOrder[chat := order + [id]];
      seenHuman := seenHuman[chat := ids + {id}];
      said := said[chat := before + [id]];
    }

    /** A fire, or its end, goes into the pitch's fire sets. */
    method Note(m: Mark)
      requires Valid() && m.pitch < |pitches| && m.human && m.authorized && (m.source.None? ==> m.on)
      modifies this`pitches, this`marks
      ensures Valid() && marks == old(marks) + [m] && Keeps(old(pitches), pitches)
      ensures pitches == old(pitches)[m.pitch := WithFire(old(pitches)[m.pitch], m.user, m.source, m.on)]
    {
      ghost var before := pitches;
      var pt := WithFire(pitches[m.pitch], m.user, m.source, m.on);
      MarkKeepsFires(pitches, marks, m, pt);
      pitches := pitches[m.pitch := pt];
      FireKeeps(before, m.pitch, m.user, m.source, m.on);
      IndexKept(before, pitches, byMsg, open);
      SameDrafted(calls, before, pitches);
      BackingKept(calls, backing, before, pitches, marks, [m], threshold);
      marks := marks + [m];
    }

    /** `_emit`, up to the await of the callback. */
    method Emit(p: nat, trigger: Trigger, user: int) returns (event: nat)
      requires Valid() && p < |pitches| && !pitches[p].drafted
      requires trigger == Fire ==> |FireUsers(pitches[p])| >= threshold
      modifies this`pitches, this`calls, this`backing
      ensures Valid() && pitches == old(pitches)[p := old(pitches)[p].(drafted := true)] && event == |old(calls)|
      ensures calls == old(calls) + [Callback(p, trigger, user, |FireUsers(old(pitches)[p])|, if listening then Running else Accepted)]
      ensures backing == old(backing) + [|marks|]
    {
      var c := Callback(p, trigger, user, |FireUsers(pitches[p])|, if listening then Running else Accepted);
      FireUsersStand(pitches, marks, p);
      EmitKeepsCalls(calls, pitches, c);
      EmitKeepsBacking(calls, backing, pitches, marks, threshold, c);
      DraftedKeeps(pitches, byMsg, open, marks, p, true);
      pitches := pitches[p := pitches[p].(drafted := true)];
      event := |calls|;
      calls := calls + [c];
      backing := backing + [|marks|];
    }

    /** `_maybe_trigger`. */
    method MaybeTrigger(p: nat, user: int) returns (event: Option<nat>)
      requires Valid() && p < |pitches|
      modifies this`pitches, this`calls, this`backing
      ensures Valid() && Keeps(old(pitches), pitches)
      ensures event.Some? <==> !old(pitches)[p].drafted && |Standing(marks, p, old(pitches)[p].authorId)| >= threshold
      ensures event.None? ==> pitches == old(pitches) && calls == old(calls)
      ensures event.Some? ==> Started(old(calls), calls, p, Fire, user) && pitches == old(pitches)[p := old(pitches)[p].(drafted := true)]
      ensures backing == old(backing) + (if event.Some? then [|marks|] else [])
    {
      FireUsersStand(pitches, marks, p);
      if pitches[p].drafted || |FireUsers(pitches[p])| < threshold {
        return None;
      }
      var c := Emit(p, Fire, user);
      event := Some(c);
    }

    /** A fire reply that landed on `hit`, or on nothing: an undrafted pitch has one more fire standing, and a callback starts
        exactly when the people with a standing fire are enough then. */
    ghost predicate Fired(before: seq<Pitch>, marks0: seq<Mark>, calls0: seq<Callback>, backing0: seq<nat>,
                          hit: Option<nat>, user: Option<int>, event: Option<nat>)
      reads this`marks, this`calls, this`backing
    {
      && (hit.Some? ==> hit.value < |before| && user.Some?)
      && (if hit.Some? && !before[hit.value].drafted then
            && marks == marks0 + [Mark(hit.value, user.value, None, true, true, true)]
            && (event.Some? <==> |Standing(marks, hit.value, before[hit.value].authorId)| >= threshold)
            && (event.Some? ==> Started(calls0, calls, hit.value, Fire, user.value))
          else marks == marks0 && event.None?)
      && (event.None? ==> calls == calls0)
      && backing == backing0 + (if event.Some? then [|marks|] else [])
    }

    lemma FiredSame(a: seq<Pitch>, b: seq<Pitch>, marks0: seq<Mark>, calls0: seq<Callback>, backing0: seq<nat>,
                    hit: Option<nat>, user: Option<int>, event: Option<nat>)
      requires Fired(b, marks0, calls0, backing0, hit, user, event) && SameButRiffs(a, b)
      ensures Fired(a, marks0, calls0, backing0, hit, user, event)
    {}

    /** A fire set or taken back; one that is set may be the one that was missing. */
    method Count(m: Mark) returns (event: Option<nat>)
      requires Valid() && m.pitch < |pitches| && m.human && m.authorized && (m.source.None? ==> m.on)
      modifies this`pitches, this`calls, this`marks, this`backing
      ensures Valid() && |pitches| == |old(pitches)| && Keeps(old(pitches), pitches) && marks == old(marks) + [m]
      ensures event.Some? <==> m.on && !old(pitches)[m.pitch].drafted
                               && |Standing(marks, m.pitch, old(pitches)[m.pitch].authorId)| >= threshold
      ensures event.Some? ==> Started(old(calls), calls, m.pitch, Fire, m.user)
      ensures event.None? ==> calls == old(calls)
      ensures backing == old(backing) + (if event.Some? then [|marks|] else [])
    {
      event := None;
      Note(m);
      ghost var noted := pitches;
      if m.on && !pitches[m.pitch].drafted {
        event := MaybeTrigger(m.pitch, m.user);
      }
      KeepsOn(old(pitches), noted, pitches);
    }

    /** One more callback was handed a new event. */
    predicate Started(before: seq<Callback>, after: seq<Callback>, p: nat, trigger: Trigger, user: int)
    {
      && |after| == |before| + 1 && after[..|before|] == before
      && after[|before|].pitch == p && after[|before|].trigger == trigger && after[|before|].triggeredBy == user
      && after[|before|].phase == if listening then Running else Accepted
    }

    method Append(pt: Pitch)
      requires Valid() && pt.replyFires == {} && pt.reactionFires == map[] && !pt.drafted
      modifies this`pitches, this`open, this`byMsg
      ensures Valid() && pitches == old(pitches) + [pt] && Listed(pt.chat) == old(Listed(pt.chat)) + [|old(pitches)|]
      ensures byMsg == old(byMsg)[(pt.chat, pt.messageId) := |old(pitches)|]
      ensures Elsewhere(pt.chat) == old(Elsewhere(pt.chat))
    {
      ghost var before := pitches;
      var known, list := byMsg[(pt.chat, pt.messageId) := |pitches|], Listed(pt.chat) + [|pitches|];
      OtherListsSet(pt.chat, open, list);
      OtherKnownSet(pt.chat, byMsg, pt.messageId, |pitches|);
      NewPitchKeepsFires(pitches, marks, pt);
      MessageAdds(pitches, byMsg, pt);
      OpenAdds(pitches, open, pt);
      pitches := pitches + [pt];
      AppendKeeps(before, pt);
      SameDrafted(calls, before, pitches);
      BackingKept(calls, backing, before, pitches, marks, [], threshold);
      assert marks + [] == marks;
      open := open[pt.chat := list];
      byMsg := known;
    }

    /** A new pitch opens. */
    method Open(msg: Message, now: real)
      requires Valid() && msg.user.Some?
      modifies this`pitches, this`open, this`byMsg
      ensures Valid() && |pitches| == |old(pitches)| + 1 && pitches[..|old(pitches)|] == old(pitches)
      ensures PitchOf(msg, now, pitches[|old(pitches)|])
      ensures Pruned(pitches, old(Listed(msg.chat)) + [|old(pitches)|], Listed(msg.chat), now, ttl, maxPitches)
      ensures Elsewhere(msg.chat) == old(Elsewhere(msg.chat))
      ensures ttl >= 0.0 && maxPitches >= 0 ==> |old(pitches)| in Listed(msg.chat)
      ensures ttl >= 0.0 && maxPitches >= 0 && NewTo(old(pitches), old(Listed(msg.chat)), msg.id) ==>
                Lookup(msg.chat, msg.id) == Some(|old(pitches)|)
    {
      ghost var p, list := |pitches|, Listed(msg.chat);
      assert list != [] ==> ListOk(pitches, list, msg.chat);
      var pt := Pitch(msg.chat, msg.id, msg.user.value, msg.handle, msg.text, msg.tickers, now, {}, map[], {}, false);
      Append(pt);
      assert pitches[p] == pt;
      ghost var before := byMsg;
      Prune(msg.chat, now);
      if ttl >= 0.0 && maxPitches >= 0 {
        NewStays(pitches, list, p, now, ttl, maxPitches);
        KeptNew(list, p, Listed(msg.chat));
        if NewTo(old(pitches), list, msg.id) {
          NewKnown(old(pitches), pitches, pt, list, list + [p], Listed(msg.chat), before, byMsg);
        }
      }
    }

    /** What every message of an admitted person does: it is remembered, old pitches are closed, and a bot's message that it
        answers may become a riff. */
    method Hear(msg: Message, now: real)
      requires Valid()
      modifies this`pitches, this`open, this`byMsg, this`seenOrder, this`seenHuman, this`said
      ensures Valid() && SameButRiffs(old(pitches), pitches)
      ensures said == old(said)[msg.chat := old(Said(msg.chat)) + [msg.id]]
      ensures Elsewhere(msg.chat) == old(Elsewhere(msg.chat))
      ensures maxPitches >= 0 ==> Pruned(old(pitches), old(Listed(msg.chat)), Listed(msg.chat), now, ttl, maxPitches)
      ensures msg.replyTo.Some? && !msg.replyToBot && old(Lookup(msg.chat, msg.replyTo.value)).None? ==>
                Lookup(msg.chat, msg.replyTo.value).None?
    {
      Seen(msg.chat, msg.id);
      Prune(msg.chat, now);
      ghost var list := Listed(msg.chat);
      if msg.replyTo.Some? && msg.replyToBot {
        var _ := Target(msg.chat, msg.replyTo.value, true, now);
        if maxPitches >= 0 && Pruned(old(pitches), list, Listed(msg.chat), now, ttl, maxPitches) {
          PrunedTwice(old(pitches), old(Listed(msg.chat)), list, old(pitches), Listed(msg.chat), now, ttl, maxPitches);
        }
      }
    }

    /** The fire-reply branch of `on_message`. */
    method FireReply(msg: Message, allowed: bool, now: real) returns (event: Option<nat>, ghost hit: Option<nat>)
      requires Valid() && Admitted(msg.user, msg.isBot, allowed) && IsFireReply(msg)
      modifies this`pitches, this`open, this`byMsg, this`calls, this`marks, this`backing
      ensures Valid() && |pitches| == |old(pitches)| && Keeps(old(pitches), pitches)
      ensures Elsewhere(msg.chat) == old(Elsewhere(msg.chat))
      ensures Listed(msg.chat) == old(Listed(msg.chat))
              || Pruned(old(pitches), old(Listed(msg.chat)), Listed(msg.chat), now, ttl, maxPitches)
      ensures hit == Lookup(msg.chat, msg.replyTo.value)
      ensures old(Lookup(msg.chat, msg.replyTo.value)).None? && old(NoRiff(msg.chat, msg.replyTo.value, msg.replyToBot)) ==> hit.None?
      ensures Fired(old(pitches), old(marks), old(calls), old(backing), hit, msg.user, event)
    {
      event := None;
      var target := Target(msg.chat, msg.replyTo.value, msg.replyToBot, now);
      hit := target;
      if target.None? || pitches[target.value].drafted {
        return;
      }
      ghost var found := pitches;
      event := Count(Mark(target.value, msg.user.value, None, true, !msg.isBot, allowed));
      KeepsOn(old(pitches), found, pitches);
    }

    /** What `on_message` does next: count a fire reply, or open a pitch. */
    method Answer(msg: Message, allowed: bool, now: real) returns (event: Option<nat>, ghost hit: Option<nat>)
      requires Valid() && Admitted(msg.user, msg.isBot, allowed)
      modifies this`pitches, this`open, this`byMsg, this`calls, this`marks, this`backing
      ensures Valid() && Keeps(old(pitches), pitches) && Elsewhere(msg.chat) == old(Elsewhere(msg.chat))
      ensures hit == if IsFireReply(msg) then Lookup(msg.chat, msg.replyTo.value) else None
      ensures hit.Some? ==> hit.value < |old(pitches)|
      ensures IsFireReply(msg) && old(Lookup(msg.chat, msg.replyTo.value)).None? ==>
                old(NoRiff(msg.chat, msg.replyTo.value, msg.replyToBot)) ==> hit.None?
      ensures Fired(old(pitches), old(marks), old(calls), old(backing), hit, msg.user, event)
      ensures |pitches| == |old(pitches)| + (if Pitches(msg, allowed) then 1 else 0)
      ensures Pitches(msg, allowed) ==> PitchOf(msg, now, pitches[|old(pitches)|])
      ensures Pitches(msg, allowed) && ttl >= 0.0 && maxPitches >= 0 ==> |old(pitches)| in Listed(msg.chat)
      ensures !Pitches(msg, allowed) ==>
                Listed(msg.chat) == old(Listed(msg.chat))
                || Pruned(old(pitches), old(Listed(msg.chat)), Listed(msg.chat), now, ttl, maxPitches)
    {
      event, hit := None, None;
      if msg.replyTo.Some? && msg.fireOnly {
        event, hit := FireReply(msg, allowed, now);
      } else if !msg.shipIt && msg.mentionsBot && !msg.isCommand && msg.tradeIdea {
        Open(msg, now);
      }
    }

    /** `on_message` once the sender check has answered; a "ship it" then waits for the host lookup (ShipItFrom goes on
        from there). `hit` is the pitch that a fire reply landed on. */
    method OnMessage(msg: Message, allowed: bool, now: real) returns (event: Option<nat>, ghost hit: Option<nat>)
      requires Valid()
      modifies this`pitches, this`open, this`byMsg, this`seenOrder, this`seenHuman, this`calls, this`said, this`marks, this`backing
      ensures Valid() && Keeps(old(pitches), pitches)
      ensures !Admitted(msg.user, msg.isBot, allowed) ==> unchanged(this)
      ensures Admitted(msg.user, msg.isBot, allowed) ==> said == old(said)[msg.chat := old(Said(msg.chat)) + [msg.id]]
      ensures Elsewhere(msg.chat) == old(Elsewhere(msg.chat))
      // a fire reply, and where it lands
      ensures hit == if Admitted(msg.user, msg.isBot, allowed) && IsFireReply(msg) then Lookup(msg.chat, msg.replyTo.value) else None
      ensures hit.Some? ==> hit.value < |old(pitches)|
      ensures msg.replyTo.Some? && !msg.replyToBot && old(Lookup(msg.chat, msg.replyTo.value)).None? ==>
                NoRiff(msg.chat, msg.replyTo.value, false) ==> hit.None?
      ensures Fired(old(pitches), old(marks), old(calls), old(backing), hit, msg.user, event)
      // a trade idea, and the open pitches
      ensures |pitches| == |old(pitches)| + (if Pitches(msg, allowed) then 1 else 0)
      ensures Pitches(msg, allowed) ==> PitchOf(msg, now, pitches[|old(pitches)|])
      ensures Pitches(msg, allowed) && ttl >= 0.0 && maxPitches >= 0 ==> |old(pitches)| in Listed(msg.chat)
      ensures Admitted(msg.user, msg.isBot, allowed) && !Pitches(msg, allowed) && maxPitches >= 0 ==>
                Pruned(old(pitches), old(Listed(msg.chat)), Listed(msg.chat), now, ttl, maxPitches)
    {
      event, hit := None, None;
      if msg.user.None? || msg.isBot || !allowed {
        return;
      }
      Hear(msg, now);
      ghost var list, heard := Listed(msg.chat), pitches;
      event, hit := Answer(msg, allowed, now);
      KeepsOn(old(pitches), heard, pitches);
      FiredSame(old(pitches), heard, old(marks), old(calls), old(backing), hit, msg.user, event);
      if maxPitches >= 0 && !Pitches(msg, allowed) && Listed(msg.chat) != list {
        PrunedTwice(old(pitches), old(Listed(msg.chat)), list, heard, Listed(msg.chat), now, ttl, maxPitches);
      }
    }

    /** The pitch that a "ship it" means: the one replied to, or else the only open one it names. */
    method Meant(msg: Message, now: real) returns (pitch: Option<nat>)
      requires Valid()
      modifies this`pitches, this`open, this`byMsg
      ensures Valid() && SameButRiffs(old(pitches), pitches) && Elsewhere(msg.chat) == old(Elsewhere(msg.chat))
      ensures pitch.Some? ==> pitch.value < |pitches|
      ensures (msg.replyTo.None? || Lookup(msg.chat, msg.replyTo.value).None?) && maxPitches >= 0 ==>
                Pruned(old(pitches), old(Listed(msg.chat)), Listed(msg.chat), now, ttl, maxPitches)
      ensures if msg.replyTo.Some? && Lookup(msg.chat, msg.replyTo.value).Some? then pitch == Lookup(msg.chat, msg.replyTo.value)
              else if pitch.Some? then OnlyNamed(old(pitches), Listed(msg.chat), msg, pitch.value)
              else forall p :: p in Listed(msg.chat) ==> !OnlyNamed(old(pitches), Listed(msg.chat), msg, p)
    {
      pitch := None;
      if msg.replyTo.Some? {
        pitch := Target(msg.chat, msg.replyTo.value, msg.replyToBot, now);
      }
      if pitch.None? {
        ghost var list := Listed(msg.chat);
        Prune(msg.chat, now);
        if msg.replyTo.Some? && maxPitches >= 0 && Pruned(old(pitches), old(Listed(msg.chat)), list, now, ttl, maxPitches) {
          PrunedTwice(old(pitches), old(Listed(msg.chat)), list, pitches, Listed(msg.chat), now, ttl, maxPitches);
        }
        assert ListOk(pitches, Listed(msg.chat), msg.chat);
        pitch := FindNamed(pitches, Listed(msg.chat), msg, msg.chat);
        SameNamed(old(pitches), pitches, Listed(msg.chat), msg);
      }
    }

    /** `on_message` from a "ship it" whose host lookup has answered. `hit` is the pitch it means. */
    method ShipItFrom(msg: Message, host: Option<int>, now: real) returns (event: Option<nat>, ghost hit: Option<nat>)
      requires Valid() && msg.user.Some?
      modifies this`pitches, this`open, this`byMsg, this`calls, this`backing
      ensures Valid() && Keeps(old(pitches), pitches) && Elsewhere(msg.chat) == old(Elsewhere(msg.chat))
      ensures host != msg.user ==> unchanged(this) && event.None?
      ensures host == msg.user && (msg.replyTo.None? || Lookup(msg.chat, msg.replyTo.value).None?) && maxPitches >= 0 ==>
                Pruned(old(pitches), old(Listed(msg.chat)), Listed(msg.chat), now, ttl, maxPitches)
      ensures hit.Some? ==> hit.value < |old(pitches)|
      ensures host == msg.user && msg.replyTo.Some? && Lookup(msg.chat, msg.replyTo.value).Some? ==>
                hit == Lookup(msg.chat, msg.replyTo.value)
      ensures host == msg.user && (msg.replyTo.None? || Lookup(msg.chat, msg.replyTo.value).None?) ==>
                if hit.Some? then OnlyNamed(old(pitches), Listed(msg.chat), msg, hit.value)
                else forall p :: p in Listed(msg.chat) ==> !OnlyNamed(old(pitches), Listed(msg.chat), msg, p)
      ensures event.Some? <==> host == msg.user && hit.Some? && !old(pitches)[hit.value].drafted
      ensures event.Some? ==> Started(old(calls), calls, hit.value, ShipIt, msg.user.value)
      ensures event.None? ==> calls == old(calls)
      ensures backing == old(backing) + (if event.Some? then [|marks|] else [])
    {
      event, hit := None, None;
      if host.None? || host.value != msg.user.value {
        return;
      }
      var pitch := Meant(msg, now);
      hit := pitch;
      if pitch.None? || pitches[pitch.value].drafted {
        return;
      }
      var c := Emit(pitch.value, ShipIt, msg.user.value);
      event := Some(c);
    }

    /** A fire set on a message of the pitch `hit`, or taken back; a callback starts exactly when it was set, the pitch is not
        drafted and the people with a standing fire are enough then. */
    ghost predicate Reacted(before: seq<Pitch>, marks0: seq<Mark>, calls0: seq<Callback>, backing0: seq<nat>,
                            hit: Option<nat>, change: ReactionChange, event: Option<nat>)
      reads this`marks, this`calls, this`backing
    {
      && (hit.Some? ==> hit.value < |before| && change.user.Some?)
      && (if hit.Some? then
            && marks == marks0 + [Mark(hit.value, change.user.value, Some(change.message), change.has, true, true)]
            && (event.Some? <==> change.has && !before[hit.value].drafted
                                 && |Standing(marks, hit.value, before[hit.value].authorId)| >= threshold)
            && (event.Some? ==> Started(calls0, calls, hit.value, Fire, change.user.value))
          else marks == marks0 && event.None?)
      && (event.None? ==> calls == calls0)
      && backing == backing0 + (if event.Some? then [|marks|] else [])
    }

    /** `on_reaction` for an admitted person's change. */
    method React(change: ReactionChange, now: real) returns (event: Option<nat>, ghost hit: Option<nat>)
      requires Valid() && change.user.Some?
      modifies this`pitches, this`open, this`byMsg, this`calls, this`marks, this`backing
      ensures Valid() && |pitches| == |old(pitches)| && Keeps(old(pitches), pitches)
      ensures Elsewhere(change.chat) == old(Elsewhere(change.chat)) && hit == Lookup(change.chat, change.message)
      ensures old(Lookup(change.chat, change.message)).None? && NoRiff(change.chat, change.message, false) ==>
                hit.None? && pitches == old(pitches)
      ensures old(Lookup(change.chat, change.message)).None? && !NoRiff(change.chat, change.message, false) ==>
                Found(pitches, Listed(change.chat), change.chat, change.message, window, hit)
                && Pruned(old(pitches), old(Listed(change.chat)), Listed(change.chat), now, ttl, maxPitches)
      ensures Reacted(old(pitches), old(marks), old(calls), old(backing), hit, change, event)
    {
      event := None;
      var target := Target(change.chat, change.message, false, now);
      hit := target;
      if target.Some? {
        ghost var found := pitches;
        event := Count(Mark(target.value, change.user.value, Some(change.message), change.has, true, true));
        KeepsOn(old(pitches), found, pitches);
        if old(Lookup(change.chat, change.message)).None?
           && Found(found, Listed(change.chat), change.chat, change.message, window, hit) {
          FoundKept(found, pitches, Listed(change.chat), change.chat, change.message, window, hit);
        }
      }
    }

    /** `on_reaction` once the sender check has answered. `hit` is the pitch of the message reacted to. */
    method OnReaction(change: ReactionChange, allowed: bool, now: real) returns (event: Option<nat>, ghost hit: Option<nat>)
      requires Valid()
      modifies this`pitches, this`open, this`byMsg, this`calls, this`marks, this`backing
      ensures Valid() && |pitches| == |old(pitches)| && Keeps(old(pitches), pitches)
      ensures Elsewhere(change.chat) == old(Elsewhere(change.chat))
      ensures !Admitted(change.user, change.isBot, allowed) || change.had == change.has ==> unchanged(this) && hit.None?
      ensures Admitted(change.user, change.isBot, allowed) && change.had != change.has ==> hit == Lookup(change.chat, change.message)
      ensures old(Lookup(change.chat, change.message)).None? && NoRiff(change.chat, change.message, false) ==>
                hit.None? && pitches == old(pitches)
      ensures Admitted(change.user, change.isBot, allowed) && change.had != change.has ==>
                old(Lookup(change.chat, change.message)).None? && !NoRiff(change.chat, change.message, false) ==>
                Found(pitches, Listed(change.chat), change.chat, change.message, window, hit)
                && Pruned(old(pitches), old(Listed(change.chat)), Listed(change.chat), now, ttl, maxPitches)
      ensures Reacted(old(pitches), old(marks), old(calls), old(backing), hit, change, event)
    {
      event, hit := None, None;
      if change.user.None? || change.isBot || !allowed || change.had == change.has {
        return;
      }
      event, hit := React(change, now);
    }

    /** A callback ends. Only a failed one opens its pitch again, and then the next fire or "ship it" can trigger it. */
    method EndCallback(c: nat, outcome: Phase)
      requires Valid() && c < |calls| && calls[c].phase == Running && outcome != Running
      modifies this`pitches, this`calls
      ensures Valid() && calls == old(calls)[c := old(calls)[c].(phase := outcome)]
      ensures var p := calls[c].pitch; pitches == old(pitches)[p := old(pitches)[p].(drafted := outcome != Failed)]
    {
      ghost var before := pitches;
      var p := calls[c].pitch;
      EndKeepsCalls(calls, pitches, c, outcome);
      DraftedKeeps(pitches, byMsg, open, marks, p, outcome != Failed);
      BackingKept(calls, backing, pitches, pitches[p := pitches[p].(drafted := outcome != Failed)], marks, [], threshold);
      assert marks + [] == marks;
      pitches := pitches[p := pitches[p].(drafted := outcome != Failed)];
      calls := calls[c := calls[c].(phase := outcome)];
    }
  }

  lemma BackingAdds(calls: seq<Callback>, backing: seq<nat>, pitches: seq<Pitch>, marks: seq<Mark>, threshold: int, c: Callback)
    requires BackingOk(calls, backing, pitches, marks, threshold) && c.pitch < |pitches|
    requires c.fireCount == |Standing(marks, c.pitch, pitches[c.pitch].authorId)| && (c.trigger == Fire ==> c.fireCount >= threshold)
    ensures BackingOk(calls + [c], backing + [|marks|], pitches, marks, threshold)
  {
    assert marks[..|marks|] == marks;
  }

  lemma EmitKeepsBacking(calls: seq<Callback>, backing: seq<nat>, pitches: seq<Pitch>, marks: seq<Mark>, threshold: int, c: Callback)
    requires BackingOk(calls, backing, pitches, marks, threshold) && c.pitch < |pitches|
    requires c.fireCount == |Standing(marks, c.pitch, pitches[c.pitch].authorId)| && (c.trigger == Fire ==> c.fireCount >= threshold)
    ensures BackingOk(calls + [c], backing + [|marks|], pitches[c.pitch := pitches[c.pitch].(drafted := true)], marks, threshold)
  {
    var after := pitches[c.pitch := pitches[c.pitch].(drafted := true)];
    BackingKept(calls, backing, pitches, after, marks, [], threshold);
    assert marks + [] == marks;
    BackingAdds(calls, backing, after, marks, threshold, c);
  }

  /** The drafted flag has no part in the index and the fires. */
  lemma DraftedKeeps(pitches: seq<Pitch>, byMsg: map<(int, int), nat>, open: map<int, seq<nat>>, marks: seq<Mark>, p: nat, on: bool)
    requires IndexOk(pitches, byMsg) && OpenOk(pitches, open) && FiresOk(pitches, marks) && p < |pitches|
    ensures var after := pitches[p := pitches[p].(drafted := on)];
            IndexOk(after, byMsg) && OpenOk(after, open) && FiresOk(after, marks)
  {
    var after := pitches[p := pitches[p].(drafted := on)];
    IndexKept(pitches, after, byMsg, open);
    SameFires(pitches, after, marks);
  }

  lemma SameNamed(a: seq<Pitch>, b: seq<Pitch>, list: seq<nat>, msg: Message)
    requires SameButRiffs(a, b)
    ensures forall p :: OnlyNamed(a, list, msg, p) <==> OnlyNamed(b, list, msg, p)
  {
    assert forall p :: Candidate(a, msg, p) <==> Candidate(b, msg, p);
  }

  /** What every interleaving has kept, said of two callbacks: those of one pitch are the same one or at least one failed;
      a fire event had its threshold of people behind it; a drafted pitch is one with a callback that did not fail. */
  lemma FlowFacts(f: PitchFlow, i: nat, j: nat)
    requires f.Valid() && i < |f.calls| && j < |f.calls|
    ensures f.calls[i].pitch == f.calls[j].pitch && f.calls[i].phase != Failed && f.calls[j].phase != Failed ==> i == j
    ensures f.calls[i].phase != Failed ==> f.pitches[f.calls[i].pitch].drafted
    ensures f.calls[i].trigger == Fire ==>
              |Standing(f.marks[..f.backing[i]], f.calls[i].pitch, f.pitches[f.calls[i].pitch].authorId)| >= f.threshold
  {
    if f.calls[i].phase != Failed {
      OneDraftPerPitch(f.calls, f.pitches, i, i);
      if f.calls[i].pitch == f.calls[j].pitch && f.calls[j].phase != Failed {
        OneDraftPerPitch(f.calls, f.pitches, i, j);
      }
    }
  }
}
