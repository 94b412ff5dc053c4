/** /start payloads (sherwood_monitor/telegram/links.py `encode_start_payload`, `decode_start_payload`). */
module StartPayload {
  import opened Text
  import opened Numerals
  import opened Links

  datatype Kind = JoinFund | DepositIn | WithdrawFrom | VoteOn | Propose

  datatype Start = Start(kind: Kind, vault: string, item: Option<string>)

  function Code(k: Kind): char {
    match k
    case JoinFund => 'j'
    case DepositIn => 'd'
    case WithdrawFrom => 'w'
    case VoteOn => 'v'
    case Propose => 'p'
  }

  function KindOfCode(c: char): (r: Option<Kind>)
    ensures r.Some? ==> Code(r.value) == c
    ensures r.None? ==> forall k :: Code(k) != c
  {
    if c == 'j' then Some(JoinFund)
    else if c == 'd' then Some(DepositIn)
    else if c == 'w' then Some(WithdrawFrom)
    else if c == 'v' then Some(VoteOn)
    else if c == 'p' then Some(Propose)
    else None
  }

  predicate IsItem(s: string) {
    1 <= |s| <= 40 && AllTokens(s)
  }

  predicate IsLowerHex40(s: string) {
    |s| == 40 && forall i :: 0 <= i < 40 ==> IsDigit(s[i]) || 'a' <= s[i] <= 'f'
  }

  function Prefix(k: Kind, hex: string): string {
    "sf" + [Code(k)] + "_" + hex
  }

  /** `encode_start_payload`; None is ValueError. The item pattern's `$` lets one trailing newline through. */
  function Encode(k: Kind, vault: string, item: Option<string>): Option<string> {
    var v := CanonicalAddress(vault);
    if v.None? || (item.Some? && !IsItem(Chopped(item.value))) then None
    else
      var p := Prefix(k, v.value[2..]) + (if item.Some? then "_" + item.value else "");
      if |p| > 64 then None else Some(p)
  }

  /** `decode_start_payload`. */
  function Decode(payload: string): Option<Start> {
    var p := Strip(payload);
    if |p| < 44 || p[0] != 's' || p[1] != 'f' || p[3] != '_' || !IsLowerHex40(p[4..44]) || KindOfCode(p[2]).None? then None
    else if |p| == 44 then Some(Start(KindOfCode(p[2]).value, "0x" + p[4..44], None))
    else if p[44] != '_' || !IsItem(p[45..]) then None
    else Some(Start(KindOfCode(p[2]).value, "0x" + p[4..44], Some(p[45..])))
  }

  lemma CanonicalHex(v: string)
    requires IsCanonicalAddress(v)
    ensures IsLowerHex40(v[2..]) && v == "0x" + v[2..]
  {
    forall i | 0 <= i < 40
      ensures IsDigit(v[2..][i]) || 'a' <= v[2..][i] <= 'f'
    {
      assert IsHex(v[2..][i]) && LowerDone(v[i + 2]);
    }
  }

  lemma HexCanonical(hex: string)
    requires IsLowerHex40(hex)
    ensures IsCanonicalAddress("0x" + hex) && CanonicalAddress("0x" + hex) == Some("0x" + hex) && ("0x" + hex)[2..] == hex
  {
    var v := "0x" + hex;
    assert v[..2] == "0x" && v[2..] == hex;
    assert forall i :: 2 <= i < |v| ==> v[i] == hex[i - 2];
    StripTrimmed(v);
    LowerFixed(v);
  }

  lemma TokensTrimmed(p: string, item: string)
    requires p != "" && !IsSpace(p[0]) && IsItem(item)
    ensures Strip(p + item) == p + item
  {
    assert IsToken(item[|item| - 1]);
    StripTrimmed(p + item);
  }

  lemma {:induction false} StripNewline(s: string)
    requires s != "" && Trimmed(s)
    ensures Strip(s + "\n") == s
  {
    RStripNewline(s);
    assert LStrip(s + "\n") == s + "\n";
  }

  lemma {:induction false} RStripNewline(s: string)
    requires s != "" && !IsSpace(s[|s| - 1])
    ensures RStrip(s + "\n") == s
  {
    var t := s + "\n";
    assert t[1..] == s[1..] + "\n";
    if |s| == 1 {
      assert s[1..] + "\n" == "\n";
      assert "\n"[1..] == "";
      assert RStrip("\n") == "";
    } else {
      RStripNewline(s[1..]);
    }
  }

  /** What the pieces of a payload decode to. */
  lemma DecodePieces(k: Kind, hex: string, item: Option<string>, payload: string)
    requires IsLowerHex40(hex) && (item.Some? ==> IsItem(item.value))
    requires Strip(payload) == Prefix(k, hex) + (if item.Some? then "_" + item.value else "")
    ensures Decode(payload) == Some(Start(k, "0x" + hex, item))
  {
    var p := Strip(payload);
    assert p[4..44] == hex;
    if item.Some? {
      assert p[45..] == item.value;
    }
  }

  /** An encoded payload fits Telegram's limit and alphabet, but for the newline that the item pattern tolerates. */
  lemma EncodedFits(k: Kind, vault: string, item: Option<string>)
    requires Encode(k, vault, item).Some?
    ensures 44 <= |Encode(k, vault, item).value| <= 64
    ensures item.None? || item.value == Chopped(item.value) ==> AllTokens(Encode(k, vault, item).value)
  {
    var v := CanonicalAddress(vault).value;
    CanonicalHex(v);
    PrefixTokens(k, v[2..]);
  }

  /** An encoded payload decodes to its kind, canonical vault and item; an item that ends in a newline loses it. */
  lemma StartRoundTrip(k: Kind, vault: string, item: Option<string>)
    requires Encode(k, vault, item).Some?
    ensures Decode(Encode(k, vault, item).value)
            == Some(Start(k, CanonicalAddress(vault).value, if item.Some? then Some(Chopped(item.value)) else None))
  {
    var v := CanonicalAddress(vault).value;
    var p := Encode(k, vault, item).value;
    CanonicalHex(v);
    PrefixTokens(k, v[2..]);
    if item.None? {
      assert IsToken(p[43]);
      StripTrimmed(p);
      DecodePieces(k, v[2..], None, p);
    } else {
      StripItem(Prefix(k, v[2..]) + "_", item.value);
      assert Prefix(k, v[2..]) + "_" + item.value == p;
      assert Prefix(k, v[2..]) + "_" + Chopped(item.value) == Prefix(k, v[2..]) + ("_" + Chopped(item.value));
      DecodePieces(k, v[2..], Some(Chopped(item.value)), p);
    }
  }

  lemma StripItem(head: string, item: string)
    requires head != "" && !IsSpace(head[0]) && IsItem(Chopped(item))
    ensures Strip(head + item) == head + Chopped(item)
  {
    var it := Chopped(item);
    TokensTrimmed(head, it);
    if item != it {
      assert item == it + "\n" && head + item == (head + it) + "\n";
      assert IsToken(it[|it| - 1]);
      StripNewline(head + it);
    }
  }

  lemma PrefixTokens(k: Kind, hex: string)
    requires IsLowerHex40(hex)
    ensures |Prefix(k, hex)| == 44 && AllTokens(Prefix(k, hex))
  {
    var p := Prefix(k, hex);
    assert forall i :: 4 <= i < 44 ==> p[i] == hex[i - 4];
  }

  /** The round trip is exact if and only if the item does not end in a newline. */
  lemma RoundTripExactIff(k: Kind, vault: string, item: Option<string>)
    requires Encode(k, vault, item).Some?
    ensures Decode(Encode(k, vault, item).value) == Some(Start(k, CanonicalAddress(vault).value, item))
            <==> (item.None? || item.value == Chopped(item.value))
  {
    StartRoundTrip(k, vault, item);
  }

  /** The failing inputs exist: an item with a newline behind it is accepted exactly when the item alone is and the text
      still fits, and it comes back without the newline. */
  lemma NewlineAcceptedIff(k: Kind, vault: string, item: string)
    ensures var e := Encode(k, vault, Some(item + "\n"));
            && (e.Some? <==> CanonicalAddress(vault).Some? && IsItem(item) && |item| <= 18)
            && (e.Some? ==> Decode(e.value) == Some(Start(k, CanonicalAddress(vault).value, Some(item))))
  {
    var long := item + "\n";
    assert Chopped(long) == item;
    var v := CanonicalAddress(vault);
    if v.Some? {
      CanonicalHex(v.value);
      PrefixTokens(k, v.value[2..]);
    }
    if Encode(k, vault, Some(long)).Some? {
      StartRoundTrip(k, vault, Some(long));
    }
  }

  /** The other way: what decodes was spelled by the encoder, but for outer whitespace, unless it exceeds 64 characters. */
  lemma DecodeEncode(payload: string)
    requires Decode(payload).Some?
    ensures var d := Decode(payload).value;
            Encode(d.kind, d.vault, d.item) == if |Strip(payload)| <= 64 then Some(Strip(payload)) else None
  {
    var p := Strip(payload);
    var d := Decode(payload).value;
    HexCanonical(p[4..44]);
    if d.item.Some? {
      assert IsToken(d.item.value[|d.item.value| - 1]);
      assert p == Prefix(d.kind, p[4..44]) + ("_" + d.item.value);
    } else {
      assert p == Prefix(d.kind, p[4..44]) + "";
    }
  }

  /** A payload decodes exactly when, less outer blanks, it is the letters sf, a kind, an underscore, 40 lower-case hex digits,
      and then nothing, or an underscore and an item of 1 to 40 characters. */
  lemma DecodesIff(payload: string)
    ensures var p := Strip(payload);
            Decode(payload).Some? <==>
              && |p| >= 44 && p[..2] == "sf" && p[2] in {'j', 'd', 'w', 'v', 'p'} && p[3] == '_' && IsLowerHex40(p[4..44])
              && (|p| > 44 ==> 46 <= |p| <= 85 && p[44] == '_' && AllTokens(p[45..]))
  {
    var p := Strip(payload);
    if |p| >= 44 {
      assert p[..2] == [p[0], p[1]];
      assert "sf" == ['s', 'f'];
      CodesAre(p[2]);
    }
  }

  lemma CodesAre(c: char)
    ensures KindOfCode(c).Some? <==> c in {'j', 'd', 'w', 'v', 'p'}
  {}
}
