/** Strings as the fund code uses them: ASCII case folding, whitespace trimming and decimal numerals. */
module Text {

  datatype Option<+T> = None | Some(value: T)

  function LowerChar(c: char): (r: char)
    ensures LowerDone(r)
  {
    if 'A' <= c <= 'Z' then (c as int + 32) as char else c
  }

  predicate LowerDone(c: char) {
    !('A' <= c <= 'Z')
  }

  /** `str.lower()` on ASCII text; other characters are left alone. */
  function Lower(s: string): (r: string)
    ensures |r| == |s|
  {
    seq(|s|, i requires 0 <= i < |s| => LowerChar(s[i]))
  }

  lemma LowerFixed(s: string)
    requires forall i :: 0 <= i < |s| ==> LowerDone(s[i])
    ensures Lower(s) == s
  {}

  /** ASCII characters for which `str.isspace` holds. */
  predicate IsSpace(c: char) {
    c == ' ' || 9 <= c as int <= 13 || 28 <= c as int <= 31
  }

  function LStrip(s: string): string {
    if s == "" then "" else if IsSpace(s[0]) then LStrip(s[1..]) else s
  }

  function RStrip(s: string): string {
    if s == "" then ""
    else
      var t := RStrip(s[1..]);
      if t == "" && IsSpace(s[0]) then "" else [s[0]] + t
  }

  /** `str.strip()`. */
  function Strip(s: string): string {
    RStrip(LStrip(s))
  }

  /** Text that `strip()` leaves alone, as agent names are when they reach the service. */
  predicate Trimmed(s: string) {
    s == "" || (!IsSpace(s[0]) && !IsSpace(s[|s| - 1]))
  }

  lemma {:induction false} LStripSplits(s: string) returns (head: string)
    ensures s == head + LStrip(s)
    ensures forall i :: 0 <= i < |head| ==> IsSpace(head[i])
    ensures LStrip(s) != "" ==> !IsSpace(LStrip(s)[0])
  {
    if s != "" && IsSpace(s[0]) {
      var h := LStripSplits(s[1..]);
      head := [s[0]] + h;
    } else {
      head := "";
    }
  }

  lemma {:induction false} RStripSplits(s: string) returns (tail: string)
    ensures s == RStrip(s) + tail
    ensures forall i :: 0 <= i < |tail| ==> IsSpace(tail[i])
    ensures RStrip(s) != "" ==> !IsSpace(RStrip(s)[|RStrip(s)| - 1])
  {
    if s == "" {
      tail := "";
    } else {
      var t := RStripSplits(s[1..]);
      tail := if RStrip(s) == "" then [s[0]] + t else t;
    }
  }

  /** `strip()` takes whitespace off both ends and nothing else. */
  lemma StripSplits(s: string) returns (head: string, tail: string)
    ensures s == head + Strip(s) + tail
    ensures forall i :: 0 <= i < |head| ==> IsSpace(head[i])
    ensures forall i :: 0 <= i < |tail| ==> IsSpace(tail[i])
    ensures Trimmed(Strip(s))
  {
    head := LStripSplits(s);
    tail := RStripSplits(LStrip(s));
    if Strip(s) != "" {
      assert LStrip(s)[0] == Strip(s)[0];
    }
  }

  lemma {:induction false} RStripFixed(s: string)
    requires s != "" && !IsSpace(s[|s| - 1])
    ensures RStrip(s) == s
  {
    if |s| > 1 {
      RStripFixed(s[1..]);
    }
  }

  lemma StripTrimmed(s: string)
    requires Trimmed(s)
    ensures Strip(s) == s
  {
    if s != "" {
      RStripFixed(s);
    }
  }
}
