/** Claim topics and their normal form (sherwood_monitor/fund/rules.py, `normalize_topic`). */
module Topics {
  import opened Text

  const MAX_TOPIC := 80

  /** The characters of the class `[a-z0-9$#./+\- ]`. */
  predicate Allowed(c: char) {
    Keep(c) || c == ' '
  }

  predicate Keep(c: char) {
    'a' <= c <= 'z' || '0' <= c <= '9' || c in "$#./+-"
  }

  lemma AllowedIs(c: char)
    ensures Allowed(c) <==> c in {'a', 'b', 'c', 'd', 'e', 'f', 'g', 'h', 'i', 'j', 'k', 'l', 'm', 'n', 'o', 'p', 'q', 'r', 's', 't', 'u',
                                  'v', 'w', 'x', 'y', 'z', '0', '1', '2', '3', '4', '5', '6', '7', '8', '9',
                                  '$', '#', '.', '/', '+', '-', ' '}
  {}

  /** `re.sub("[^...]+", " ", s)`: each run of disallowed characters becomes one blank. */
  function SubDisallowed(s: string, inRun: bool): string {
    if s == "" then ""
    else if Allowed(s[0]) then [s[0]] + SubDisallowed(s[1..], false)
    else if inRun then SubDisallowed(s[1..], true)
    else " " + SubDisallowed(s[1..], true)
  }

  /** `re.sub("\s+", " ", s)`: each run of whitespace becomes one blank. */
  function Collapse(s: string, inRun: bool): string {
    if s == "" then ""
    else if !IsSpace(s[0]) then [s[0]] + Collapse(s[1..], false)
    else if inRun then Collapse(s[1..], true)
    else " " + Collapse(s[1..], true)
  }

  /** The normal form before the cut at 80 characters. */
  function Uncut(topic: string): string {
    Strip(Collapse(SubDisallowed(Lower(topic), false), false))
  }

  function Cut(s: string): string {
    if |s| <= MAX_TOPIC then s else s[..MAX_TOPIC]
  }

  /** `normalize_topic`. */
  function Normalize(topic: string): string {
    Cut(Uncut(topic))
  }

  /** A reference form of the two substitutions and the strip in one pass:
      the kept characters, with one blank wherever something was dropped between two of them. */
  function Squeeze(s: string, started: bool, gap: bool): string {
    if s == "" then ""
    else if Keep(s[0]) then (if started && gap then " " else "") + [s[0]] + Squeeze(s[1..], true, false)
    else Squeeze(s[1..], started, true)
  }

  /** Lower-case words of kept characters, single blanks between them, none around them. */
  predicate Canonical(s: string) {
    && (forall i :: 0 <= i < |s| ==> Allowed(s[i]))
    && (s != "" ==> s[0] != ' ' && s[|s| - 1] != ' ')
    && (forall i :: 0 < i < |s| ==> !(s[i - 1] == ' ' && s[i] == ' '))
  }

  /** Both substitutions, started inside (or outside) a run. */
  function Pipe(s: string, r1: bool, r2: bool): string {
    Collapse(SubDisallowed(s, r1), r2)
  }

  lemma PipeStep(s: string, r1: bool, r2: bool)
    requires s != "" && (r1 ==> r2)
    ensures Keep(s[0]) ==> Pipe(s, r1, r2) == [s[0]] + Pipe(s[1..], false, false)
    ensures !Keep(s[0]) ==> Pipe(s, r1, r2) == (if r2 then "" else " ") + Pipe(s[1..], s[0] != ' ', true)
  {
    var rest := SubDisallowed(s[1..], s[0] != ' ' && !Keep(s[0]));
    assert ([s[0]] + rest)[1..] == rest;
    assert (" " + rest)[1..] == rest;
  }

  lemma StripCons(c: char, s: string)
    ensures RStrip([c] + s) == if RStrip(s) == "" && IsSpace(c) then "" else [c] + RStrip(s)
    ensures LStrip([c] + s) == if IsSpace(c) then LStrip(s) else [c] + s
  {
    assert ([c] + s)[1..] == s;
  }

  lemma {:induction false} SqueezeStarted(s: string, r1: bool, r2: bool)
    requires r1 ==> r2
    ensures var t := RStrip(Pipe(s, r1, r2));
            Squeeze(s, true, r2) == if r2 && t != "" then " " + t else t
  {
    if s != "" {
      PipeStep(s, r1, r2);
      if Keep(s[0]) {
        SqueezeStarted(s[1..], false, false);
        StripCons(s[0], Pipe(s[1..], false, false));
      } else {
        SqueezeStarted(s[1..], s[0] != ' ', true);
        StripCons(' ', Pipe(s[1..], s[0] != ' ', true));
        assert "" + Pipe(s[1..], s[0] != ' ', true) == Pipe(s[1..], s[0] != ' ', true);
      }
    }
  }

  lemma {:induction false} SqueezeUnstarted(s: string, r1: bool, r2: bool, gap: bool)
    requires r1 ==> r2
    ensures Squeeze(s, false, gap) == Strip(Pipe(s, r1, r2))
  {
    if s != "" {
      PipeStep(s, r1, r2);
      if Keep(s[0]) {
        SqueezeStarted(s[1..], false, false);
        StripCons(s[0], Pipe(s[1..], false, false));
      } else {
        SqueezeUnstarted(s[1..], s[0] != ' ', true, true);
        StripCons(' ', Pipe(s[1..], s[0] != ' ', true));
        assert "" + Pipe(s[1..], s[0] != ' ', true) == Pipe(s[1..], s[0] != ' ', true);
      }
    }
  }

  /** The regex pipeline computes the one-pass form. */
  lemma UncutIsSqueeze(topic: string)
    ensures Uncut(topic) == Squeeze(Lower(topic), false, false)
  {
    SqueezeUnstarted(Lower(topic), false, false, false);
  }

  lemma {:induction false} SqueezeShape(s: string, started: bool, gap: bool)
    ensures var r := Squeeze(s, started, gap);
            && (forall i :: 0 <= i < |r| ==> Allowed(r[i]))
            && (r != "" ==> r[|r| - 1] != ' ' && (r[0] == ' ' ==> started))
            && (forall i :: 0 < i < |r| ==> !(r[i - 1] == ' ' && r[i] == ' '))
  {
    if s != "" {
      if Keep(s[0]) {
        SqueezeShape(s[1..], true, false);
      } else {
        SqueezeShape(s[1..], started, true);
      }
    }
  }

  lemma {:induction false} SqueezeFixed(s: string, started: bool)
    requires forall i :: 0 <= i < |s| ==> Allowed(s[i])
    requires s != "" ==> s[|s| - 1] != ' ' && (s[0] == ' ' ==> started)
    requires forall i :: 0 < i < |s| ==> !(s[i - 1] == ' ' && s[i] == ' ')
    ensures Squeeze(s, started, false) == s
  {
    if s != "" {
      if s[0] == ' ' {
        assert s[0 + 1] != ' ';
        SqueezeFixed(s[2..], true);
        assert s[1..][1..] == s[2..];
        assert s == " " + [s[1]] + s[2..];
      } else {
        SqueezeFixed(s[1..], true);
      }
    }
  }

  /** Dropped characters at the end never show. */
  lemma {:induction false} SqueezeTail(s: string, tail: string, started: bool, gap: bool)
    requires forall i :: 0 <= i < |tail| ==> !Keep(tail[i])
    ensures Squeeze(s + tail, started, gap) == Squeeze(s, started, gap)
  {
    if s != "" {
      assert (s + tail)[1..] == s[1..] + tail;
      SqueezeTail(s[1..], tail, true, false);
      SqueezeTail(s[1..], tail, started, true);
    } else if tail != "" {
      assert s + tail == tail;
      SqueezeTail("", tail[1..], started, true);
      assert "" + tail[1..] == tail[1..];
    }
  }

  /** Nor do dropped characters at the front. */
  lemma {:induction false} SqueezeHead(head: string, s: string, gap: bool)
    requires forall i :: 0 <= i < |head| ==> !Keep(head[i])
    ensures Squeeze(head + s, false, gap) == Squeeze(s, false, false)
    decreases |head| + |s|
  {
    if head != "" {
      assert (head + s)[1..] == head[1..] + s;
      SqueezeHead(head[1..], s, true);
    } else {
      assert head + s == s;
      if s != "" && !Keep(s[0]) {
        SqueezeHead("", s[1..], true);
        assert "" + s[1..] == s[1..];
      }
    }
  }

  /** The text a claim stores is `topic.strip()`; it has the topic's normal form. */
  lemma NormalizeStrip(topic: string)
    ensures Normalize(Strip(topic)) == Normalize(topic)
  {
    var head, tail := StripSplits(topic);
    var m := Strip(topic);
    assert Lower(topic) == Lower(head) + (Lower(m) + Lower(tail));
    SqueezeHead(Lower(head), Lower(m) + Lower(tail), false);
    SqueezeTail(Lower(m), Lower(tail), false, false);
    UncutIsSqueeze(topic);
    UncutIsSqueeze(m);
  }

  lemma CanonicalFixed(s: string)
    requires Canonical(s)
    ensures Uncut(s) == s
  {
    UncutIsSqueeze(s);
    LowerFixed(s);
    SqueezeFixed(s, false);
  }

  lemma UncutCanonical(topic: string)
    ensures Canonical(Uncut(topic))
  {
    UncutIsSqueeze(topic);
    SqueezeShape(Lower(topic), false, false);
  }

  /** The squeezed topic is longer than 80 characters and its 80th one is a blank. */
  predicate CutLeavesBlank(topic: string) {
    var q := Squeeze(Lower(topic), false, false);
    |q| > MAX_TOPIC && q[MAX_TOPIC - 1] == ' '
  }

  /** Then, and only then, the normal form ends in a blank. */
  lemma BlankAtCut(topic: string)
    ensures CutLeavesBlank(topic) <==> Normalize(topic) != "" && Normalize(topic)[|Normalize(topic)| - 1] == ' '
  {
    UncutIsSqueeze(topic);
    UncutCanonical(topic);
  }

  /** A proper prefix of a canonical text is canonical once a trailing blank is dropped. */
  lemma CanonicalPrefix(s: string, k: nat)
    requires Canonical(s) && k <= |s|
    ensures k == 0 || s[k - 1] != ' ' ==> Canonical(s[..k])
    ensures k > 0 && s[k - 1] == ' ' ==> Canonical(s[..k - 1])
  {}

  lemma BlankTailDropped(q: string)
    requires Canonical(q)
    ensures Uncut(q + " ") == q
  {
    UncutIsSqueeze(q + " ");
    LowerFixed(q + " ");
    SqueezeTail(q, " ", false, false);
    SqueezeFixed(q, false);
  }

  /** The second pass: what it does to a normal form. */
  lemma SecondPass(topic: string)
    ensures var n := Normalize(topic);
            Normalize(n) == if n != "" && n[|n| - 1] == ' ' then n[..|n| - 1] else n
    ensures Canonical(Normalize(Normalize(topic)))
  {
    var u := Uncut(topic);
    var n := Normalize(topic);
    UncutCanonical(topic);
    assert n == u[..|n|];
    CanonicalPrefix(u, |n|);
    if n != "" && n[|n| - 1] == ' ' {
      var q := n[..|n| - 1];
      assert q == u[..|n| - 1] && n == q + " ";
      BlankTailDropped(q);
    } else {
      CanonicalFixed(n);
    }
  }

  /** `normalize_topic` is idempotent exactly on the topics whose cut leaves no trailing blank. */
  lemma NormalizeIdempotentIff(topic: string)
    ensures Normalize(Normalize(topic)) == Normalize(topic) <==> !CutLeavesBlank(topic)
  {
    BlankAtCut(topic);
    SecondPass(topic);
  }

  /** Two passes always reach a fixed point. */
  lemma TwoPassesReachFixedPoint(topic: string)
    ensures Normalize(Normalize(Normalize(topic))) == Normalize(Normalize(topic))
  {
    SecondPass(topic);
    CanonicalFixed(Normalize(Normalize(topic)));
  }

  /** A topic for which one pass is not enough. */
  lemma LongTopicKeepsBlank() returns (topic: string)
    ensures CutLeavesBlank(topic) && Trimmed(topic)
    ensures Normalize(Normalize(topic)) != Normalize(topic)
  {
    var a := seq(79, i => 'a');
    topic := a + " b";
    assert Canonical(topic);
    CanonicalFixed(topic);
    assert Normalize(topic) == topic[..80];
    assert topic[79] == ' ';
    BlankAtCut(topic);
    SecondPass(topic);
  }
}
