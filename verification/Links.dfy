/** Signed links and image messages (sherwood_monitor/telegram/links.py). */
module Links {
  import opened Text
  import opened Numerals

  datatype FundKind = Join | Deposit | Withdraw

  /** What a signed message says, in canonical form. */
  datatype Link =
    | FundLink(kind: FundKind, vault: string, tg: nat, ts: int)
    | VoteLink(governor: string, proposalId: string, tg: nat, ts: int)
    | SignLink(vault: string, action: string, body: string, tg: nat, ts: int)
    | ReceiptImage(vault: string, proposalRef: string, ideaBy: string, backers: Option<int>)
    | MemberImage(vault: string, n: int, handle: string, joined: string)
    | AttribImage(vault: string, attrib: string)

  /** The hash of the checksum: nibble i of the keccak digest of an address. */
  type Digest = (string, nat) -> nat

  // ----- canonical fields

  predicate IsCanonicalAddress(s: string) {
    IsAddress(s) && forall i :: 0 <= i < |s| ==> LowerDone(s[i])
  }

  /** `canonical_address`; None is ValueError. */
  function CanonicalAddress(text: string): (r: Option<string>)
    ensures r.Some? ==> IsCanonicalAddress(r.value)
  {
    var t := Strip(text);
    if IsAddress(t) then
      LowerKeepsAddress(t);
      Some(Lower(t))
    else None
  }

  lemma LowerKeepsAddress(t: string)
    requires IsAddress(t)
    ensures IsCanonicalAddress(Lower(t))
  {
    var s := Lower(t);
    assert s[0] == LowerChar(t[0]) && s[1] == LowerChar(t[1]) && t[..2][0] == t[0] && t[..2][1] == t[1];
    assert s[..2] == "0x";
    forall i | 0 <= i < |s[2..]|
      ensures IsHex(s[2..][i])
    {
      assert IsHex(t[2..][i]);
    }
  }

  predicate IsToken(c: char) {
    IsDigit(c) || 'A' <= c <= 'Z' || 'a' <= c <= 'z' || c == '_' || c == '-'
  }

  predicate AllTokens(s: string) {
    forall i :: 0 <= i < |s| ==> IsToken(s[i])
  }

  /** `canonical_proposal_id`. */
  function CanonicalProposalId(text: string): Option<string> {
    var t := Strip(text);
    if 1 <= |t| <= 78 && AllTokens(t) then Some(t) else None
  }

  /** `_canonical_tg`. */
  function CanonicalTg(text: string): Option<nat> {
    var n := ParseInt(text);
    if n.None? || n.value <= 0 then None else Some(n.value)
  }

  predicate IsHandleChar(c: char) {
    IsDigit(c) || 'A' <= c <= 'Z' || 'a' <= c <= 'z' || c == '_'
  }

  function HandleChars(s: string): (r: string)
    ensures forall i :: 0 <= i < |r| ==> IsHandleChar(r[i])
  {
    if s == "" then ""
    else HandleChars(s[..|s| - 1]) + (if IsHandleChar(s[|s| - 1]) then [s[|s| - 1]] else "")
  }

  /** `social_handle`: `lstrip("@")` is absorbed, since "@" is not a handle character. */
  function SocialHandle(text: string): string {
    var t := HandleChars(text);
    if |t| <= 32 then t else t[..32]
  }

  predicate IsHandle(s: string) {
    |s| <= 32 && forall i :: 0 <= i < |s| ==> IsHandleChar(s[i])
  }

  /** Without one trailing newline, which `$` tolerates. */
  function Chopped(s: string): string {
    if s != "" && s[|s| - 1] == '\n' then s[..|s| - 1] else s
  }

  predicate IsDate(s: string) {
    var t := Chopped(s);
    |t| == 10 && t[4] == '-' && t[7] == '-' && AllDigits(t[..4]) && AllDigits(t[5..7]) && AllDigits(t[8..])
  }

  const SIGN_ACTIONS := {"approve-depositor", "approve-depositors", "register-agent", "propose-portfolio", "propose", "set-agent-fee"}

  predicate Canonical(l: Link) {
    match l
    case FundLink(_, vault, tg, _) => IsCanonicalAddress(vault) && tg > 0
    case VoteLink(governor, pid, tg, _) => IsCanonicalAddress(governor) && 1 <= |pid| <= 78 && AllTokens(pid) && tg > 0
    case SignLink(vault, action, _, tg, _) => IsCanonicalAddress(vault) && action in SIGN_ACTIONS && tg > 0
    case ReceiptImage(vault, pid, ideaBy, _) => IsCanonicalAddress(vault) && pid != "" && AllDigits(pid) && IsHandle(ideaBy)
    case MemberImage(vault, _, handle, joined) => IsCanonicalAddress(vault) && IsHandle(handle) && (joined == "" || IsDate(joined))
    case AttribImage(vault, _) => IsCanonicalAddress(vault)
  }

  // ----- the builders' canonicalization of what they are given; None is ValueError

  function FundLinkOf(kind: string, vault: string, tg: string, ts: int): (r: Option<Link>)
    ensures r.Some? ==> Canonical(r.value)
  {
    var k := KindOf(kind);
    var v := CanonicalAddress(vault);
    var t := CanonicalTg(tg);
    if k.None? || v.None? || t.None? then None else Some(FundLink(k.value, v.value, t.value, ts))
  }

  function VoteLinkOf(governor: string, proposalId: string, tg: string, ts: int): (r: Option<Link>)
    ensures r.Some? ==> Canonical(r.value)
  {
    var g := CanonicalAddress(governor);
    var p := CanonicalProposalId(proposalId);
    var t := CanonicalTg(tg);
    if g.None? || p.None? || t.None? then None else Some(VoteLink(g.value, p.value, t.value, ts))
  }

  function SignLinkOf(vault: string, action: string, body: string, tg: string, ts: int): (r: Option<Link>)
    ensures r.Some? ==> Canonical(r.value)
  {
    var v := CanonicalAddress(vault);
    var t := CanonicalTg(tg);
    if action !in SIGN_ACTIONS || v.None? || t.None? then None else Some(SignLink(v.value, action, body, t.value, ts))
  }

  /** `backers` is None when it is blank or "None"; Some(None) is a text that is no integer. */
  function ReceiptImageOf(vault: string, proposalId: string, ideaBy: string, backers: Option<Option<int>>): (r: Option<Link>)
    ensures r.Some? ==> Canonical(r.value)
  {
    var v := CanonicalAddress(vault);
    var p := Strip(proposalId);
    if v.None? || p == "" || !AllDigits(p) || backers == Some(None) then None
    else Some(ReceiptImage(v.value, p, SocialHandle(ideaBy), if backers.None? then None else backers.value))
  }

  function MemberImageOf(vault: string, n: int, handle: string, joined: string): (r: Option<Link>)
    ensures r.Some? ==> Canonical(r.value)
  {
    var v := CanonicalAddress(vault);
    if v.None? || (joined != "" && !IsDate(joined)) then None
    else Some(MemberImage(v.value, n, SocialHandle(handle), joined))
  }

  function AttribImageOf(vault: string, attrib: string): (r: Option<Link>)
    ensures r.Some? ==> Canonical(r.value)
  {
    var v := CanonicalAddress(vault);
    if v.None? then None else Some(AttribImage(v.value, attrib))
  }

  /** What a caller hands to one of the builders. */
  datatype Request =
    | AskFund(kind: string, vault: string, tg: string, ts: int)
    | AskVote(governor: string, proposalId: string, tg: string, ts: int)
    | AskSign(vault: string, action: string, body: string, tg: string, ts: int)
    | AskReceipt(vault: string, proposalRef: string, ideaBy: string, backers: Option<Option<int>>)
    | AskMember(vault: string, n: int, handle: string, joined: string)
    | AskAttrib(vault: string, attrib: string)

  function Build(q: Request): (r: Option<Link>)
    ensures r.Some? ==> Canonical(r.value)
  {
    match q
    case AskFund(kind, vault, tg, ts) => FundLinkOf(kind, vault, tg, ts)
    case AskVote(governor, pid, tg, ts) => VoteLinkOf(governor, pid, tg, ts)
    case AskSign(vault, action, body, tg, ts) => SignLinkOf(vault, action, body, tg, ts)
    case AskReceipt(vault, pid, ideaBy, backers) => ReceiptImageOf(vault, pid, ideaBy, backers)
    case AskMember(vault, n, handle, joined) => MemberImageOf(vault, n, handle, joined)
    case AskAttrib(vault, attrib) => AttribImageOf(vault, attrib)
  }

  // ----- messages

  function KindName(k: FundKind): string {
    match k
    case Join => "join"
    case Deposit => "deposit"
    case Withdraw => "withdraw"
  }

  function KindOf(s: string): Option<FundKind> {
    if s == "join" then Some(Join) else if s == "deposit" then Some(Deposit) else if s == "withdraw" then Some(Withdraw) else None
  }

  function UpperChar(c: char): char {
    if 'a' <= c <= 'z' then (c as int - 32) as char else c
  }

  /** `checksum_address` of a canonical address. */
  function Checksum(address: string, h: Digest): (r: string)
    requires IsCanonicalAddress(address)
    ensures |r| == |address| && Lower(r) == address
    ensures forall i :: 2 <= i < |r| ==> ('A' <= r[i] <= 'Z' <==> 'a' <= address[i] <= 'z' && h(address[2..], i - 2) >= 8)
  {
    var r := seq(|address|, i requires 0 <= i < |address| =>
      if i >= 2 && 'a' <= address[i] <= 'z' && h(address[2..], i - 2) >= 8 then UpperChar(address[i]) else address[i]);
    assert forall i :: 0 <= i < |address| ==> LowerDone(address[i]);
    assert Lower(r) == address;
    r
  }

  function Bar(a: string, b: string): string {
    a + ['|'] + b
  }

  function Colon(a: string, b: string): string {
    a + [':'] + b
  }

  /** The string that is signed. */
  function Message(l: Link, h: Digest): string
    requires Canonical(l)
  {
    match l
    case FundLink(kind, vault, tg, ts) => Bar(KindName(kind), Bar(vault, Bar(ShowNat(tg), Show(ts))))
    case VoteLink(governor, pid, tg, ts) => Bar("vote", Bar(Colon(governor, pid), Bar(ShowNat(tg), Show(ts))))
    case SignLink(vault, action, body, tg, ts) =>
      Bar("sign", Bar(vault, Bar(action, Bar(Bar(body, ShowNat(tg)), Show(ts)))))
    case ReceiptImage(vault, pid, ideaBy, backers) =>
      Bar("receipt", Bar(Colon(Checksum(vault, h), pid), Bar(ideaBy, if backers.Some? then Show(backers.value) else "")))
    case MemberImage(vault, n, handle, joined) =>
      Bar("member", Bar(Colon(Checksum(vault, h), Show(n)), Bar(handle, joined)))
    case AttribImage(vault, attrib) => Bar("attrib", Bar(Checksum(vault, h), attrib))
  }

  // ----- reading a message back

  datatype Halves = Halves(left: string, right: string)

  function SplitFirst(s: string, c: char): Halves {
    if s == "" then Halves("", "")
    else if s[0] == c then Halves("", s[1..])
    else
      var r := SplitFirst(s[1..], c);
      Halves([s[0]] + r.left, r.right)
  }

  function SplitLast(s: string, c: char): Halves {
    if s == "" then Halves("", "")
    else if s[|s| - 1] == c then Halves(s[..|s| - 1], "")
    else
      var r := SplitLast(s[..|s| - 1], c);
      Halves(r.left, r.right + [s[|s| - 1]])
  }

  predicate Lacks(s: string, c: char) {
    forall i :: 0 <= i < |s| ==> s[i] != c
  }

  lemma {:induction false} SplitFirstAt(a: string, c: char, b: string)
    requires Lacks(a, c)
    ensures SplitFirst(a + [c] + b, c) == Halves(a, b)
  {
    var s := a + [c] + b;
    if a == "" {
      assert s[1..] == b;
    } else {
      SplitFirstAt(a[1..], c, b);
      assert s[1..] == a[1..] + [c] + b;
      assert a == [a[0]] + a[1..];
    }
  }

  lemma {:induction false} SplitLastAt(a: string, c: char, b: string)
    requires Lacks(b, c)
    ensures SplitLast(a + [c] + b, c) == Halves(a, b)
  {
    var s := a + [c] + b;
    if b == "" {
      assert s[..|s| - 1] == a;
    } else {
      SplitLastAt(a, c, b[..|b| - 1]);
      assert s[..|s| - 1] == a + [c] + b[..|b| - 1];
      assert b == b[..|b| - 1] + [b[|b| - 1]];
    }
  }

  function Number(s: string): int {
    var n := ParseInt(s);
    if n.Some? then n.value else 0
  }

  function Natural(s: string): nat {
    if Number(s) < 0 then 0 else Number(s)
  }

  /** A reader of signed messages. */
  function Read(m: string): Option<Link> {
    var a := SplitFirst(m, '|');
    var b := SplitFirst(a.right, '|');
    var c := SplitFirst(b.right, '|');
    var ref := SplitFirst(b.left, ':');
    if KindOf(a.left).Some? then Some(FundLink(KindOf(a.left).value, b.left, Natural(c.left), Number(c.right)))
    else if a.left == "vote" then Some(VoteLink(ref.left, ref.right, Natural(c.left), Number(c.right)))
    else if a.left == "sign" then
      var d := SplitLast(c.right, '|');
      var e := SplitLast(d.left, '|');
      Some(SignLink(b.left, c.left, e.left, Natural(e.right), Number(d.right)))
    else if a.left == "receipt" then
      Some(ReceiptImage(Lower(ref.left), ref.right, c.left, if c.right == "" then None else Some(Number(c.right))))
    else if a.left == "member" then Some(MemberImage(Lower(ref.left), Number(ref.right), c.left, c.right))
    else if a.left == "attrib" then Some(AttribImage(Lower(b.left), b.right))
    else None
  }

  lemma NumberShow(n: int)
    ensures Number(Show(n)) == n && Show(n) != "" && Lacks(Show(n), '|')
    ensures n >= 0 ==> Natural(ShowNat(n)) == n && Lacks(ShowNat(n), '|')
  {
    ParseShow(n);
    ShowNatReads(if n < 0 then -n else n);
  }

  lemma AddressLacks(a: string)
    requires IsAddress(a)
    ensures Lacks(a, '|') && Lacks(a, ':')
  {
    assert a == a[..2] + a[2..];
    forall i | 0 <= i < |a|
      ensures a[i] != '|' && a[i] != ':'
    {
      if i >= 2 {
        assert IsHex(a[2..][i - 2]);
      } else {
        assert a[i] == a[..2][i];
      }
    }
  }

  lemma {:induction false} ChecksumLacks(a: string, h: Digest)
    requires IsCanonicalAddress(a)
    ensures Lacks(Checksum(a, h), '|') && Lacks(Checksum(a, h), ':')
  {
    AddressLacks(a);
    var r := Checksum(a, h);
    forall i | 0 <= i < |r|
      ensures r[i] != '|' && r[i] != ':'
    {
      assert Lower(r)[i] == a[i];
    }
  }

  /** Read a chain a|b|c that starts with two separator-free parts. */
  lemma Three(a: string, b: string, c: string, d: string)
    requires Lacks(a, '|') && Lacks(b, '|') && Lacks(c, '|')
    ensures var m := Bar(a, Bar(b, Bar(c, d)));
            && SplitFirst(m, '|') == Halves(a, Bar(b, Bar(c, d)))
            && SplitFirst(Bar(b, Bar(c, d)), '|') == Halves(b, Bar(c, d))
            && SplitFirst(Bar(c, d), '|') == Halves(c, d)
  {
    SplitFirstAt(a, '|', Bar(b, Bar(c, d)));
    SplitFirstAt(b, '|', Bar(c, d));
    SplitFirstAt(c, '|', d);
  }

  lemma ColonLacks(a: string, b: string)
    requires Lacks(a, '|') && Lacks(b, '|')
    ensures Lacks(Colon(a, b), '|')
  {}

  lemma KindNames(k: FundKind)
    ensures Lacks(KindName(k), '|') && KindOf(KindName(k)) == Some(k)
  {}

  lemma ActionLacks(action: string)
    requires action in SIGN_ACTIONS
    ensures Lacks(action, '|')
  {}

  lemma ReadFund(l: Link, h: Digest)
    requires Canonical(l) && l.FundLink?
    ensures Read(Message(l, h)) == Some(l)
  {
    AddressLacks(l.vault);
    NumberShow(l.tg);
    NumberShow(l.ts);
    KindNames(l.kind);
    Three(KindName(l.kind), l.vault, ShowNat(l.tg), Show(l.ts));
  }

  lemma ReadVote(l: Link, h: Digest)
    requires Canonical(l) && l.VoteLink?
    ensures Read(Message(l, h)) == Some(l)
  {
    AddressLacks(l.governor);
    NumberShow(l.tg);
    NumberShow(l.ts);
    ColonLacks(l.governor, l.proposalId);
    Three("vote", Colon(l.governor, l.proposalId), ShowNat(l.tg), Show(l.ts));
    SplitFirstAt(l.governor, ':', l.proposalId);
  }

  /** The body may hold anything: it is what lies between the third separator and the last but one. */
  lemma ReadSign(l: Link, h: Digest)
    requires Canonical(l) && l.SignLink?
    ensures Read(Message(l, h)) == Some(l)
  {
    AddressLacks(l.vault);
    ActionLacks(l.action);
    var tail := Bar(Bar(l.body, ShowNat(l.tg)), Show(l.ts));
    Three("sign", l.vault, l.action, tail);
    ReadTail(l.body, l.tg, l.ts);
    ReadSigned(l.vault, l.action, tail);
  }

  lemma ReadTail(body: string, tg: nat, ts: int)
    ensures var d := SplitLast(Bar(Bar(body, ShowNat(tg)), Show(ts)), '|');
            var e := SplitLast(d.left, '|');
            e.left == body && Natural(e.right) == tg && Number(d.right) == ts
  {
    NumberShow(tg);
    NumberShow(ts);
    SplitLastAt(Bar(body, ShowNat(tg)), '|', Show(ts));
    SplitLastAt(body, '|', ShowNat(tg));
  }

  lemma ReadSigned(vault: string, action: string, tail: string)
    requires Lacks(vault, '|') && Lacks(action, '|')
    ensures var d := SplitLast(tail, '|');
            var e := SplitLast(d.left, '|');
            Read(Bar("sign", Bar(vault, Bar(action, tail)))) ==
            Some(SignLink(vault, action, e.left, Natural(e.right), Number(d.right)))
  {
    Three("sign", vault, action, tail);
    assert KindOf("sign").None?;
  }

  lemma ReadReceipt(l: Link, h: Digest)
    requires Canonical(l) && l.ReceiptImage?
    ensures Read(Message(l, h)) == Some(l)
  {
    var v := Checksum(l.vault, h);
    var backers := if l.backers.Some? then Show(l.backers.value) else "";
    ChecksumLacks(l.vault, h);
    ColonLacks(v, l.proposalRef);
    Three("receipt", Colon(v, l.proposalRef), l.ideaBy, backers);
    SplitFirstAt(v, ':', l.proposalRef);
    if l.backers.Some? {
      NumberShow(l.backers.value);
    }
  }

  lemma ReadMember(l: Link, h: Digest)
    requires Canonical(l) && l.MemberImage?
    ensures Read(Message(l, h)) == Some(l)
  {
    var v := Checksum(l.vault, h);
    ChecksumLacks(l.vault, h);
    NumberShow(l.n);
    ColonLacks(v, Show(l.n));
    Three("member", Colon(v, Show(l.n)), l.handle, l.joined);
    SplitFirstAt(v, ':', Show(l.n));
  }

  lemma ReadAttrib(l: Link, h: Digest)
    requires Canonical(l) && l.AttribImage?
    ensures Read(Message(l, h)) == Some(l)
  {
    ChecksumLacks(l.vault, h);
    SplitFirstAt("attrib", '|', Bar(Checksum(l.vault, h), l.attrib));
    SplitFirstAt(Checksum(l.vault, h), '|', l.attrib);
  }

  /** Every signed message can be read back: its kind and all its canonical fields. */
  lemma ReadMessage(l: Link, h: Digest)
    requires Canonical(l)
    ensures Read(Message(l, h)) == Some(l)
  {
    match l {
      case FundLink(_, _, _, _) => ReadFund(l, h);
      case VoteLink(_, _, _, _) => ReadVote(l, h);
      case SignLink(_, _, _, _, _) => ReadSign(l, h);
      case ReceiptImage(_, _, _, _) => ReadReceipt(l, h);
      case MemberImage(_, _, _, _) => ReadMember(l, h);
      case AttribImage(_, _) => ReadAttrib(l, h);
    }
  }

  /** The signed strings of all kinds together are injective: no message serves two links. */
  lemma MessageInjective(a: Link, b: Link, h: Digest)
    requires Canonical(a) && Canonical(b) && Message(a, h) == Message(b, h)
    ensures a == b
  {
    ReadMessage(a, h);
    ReadMessage(b, h);
  }

  /** Two requests of any kinds are signed as one string exactly when they ask for the same canonical link. */
  lemma SameStringIffSameLink(p: Request, q: Request, h: Digest)
    requires Build(p).Some? && Build(q).Some?
    ensures Message(Build(p).value, h) == Message(Build(q).value, h) <==> Build(p) == Build(q)
  {
    if Message(Build(p).value, h) == Message(Build(q).value, h) {
      MessageInjective(Build(p).value, Build(q).value, h);
    }
  }

  /** The canonical fields of a link, handed in again. */
  function Asking(l: Link): Request {
    match l
    case FundLink(kind, vault, tg, ts) => AskFund(KindName(kind), vault, ShowNat(tg), ts)
    case VoteLink(governor, pid, tg, ts) => AskVote(governor, pid, ShowNat(tg), ts)
    case SignLink(vault, action, body, tg, ts) => AskSign(vault, action, body, ShowNat(tg), ts)
    case ReceiptImage(vault, pid, ideaBy, backers) =>
      AskReceipt(vault, pid, ideaBy, if backers.Some? then Some(backers) else None)
    case MemberImage(vault, n, handle, joined) => AskMember(vault, n, handle, joined)
    case AttribImage(vault, attrib) => AskAttrib(vault, attrib)
  }

  lemma AddressFixed(v: string)
    requires IsCanonicalAddress(v)
    ensures CanonicalAddress(v) == Some(v)
  {
    assert IsHex(v[2..][|v| - 3]) && v[|v| - 1] == v[2..][|v| - 3];
    assert v[0] == v[..2][0];
    StripTrimmed(v);
    LowerFixed(v);
  }

  lemma {:induction false} HandleFixed(s: string)
    requires forall i :: 0 <= i < |s| ==> IsHandleChar(s[i])
    ensures HandleChars(s) == s
  {
    if s != "" {
      HandleFixed(s[..|s| - 1]);
    }
  }

  lemma SocialFixed(s: string)
    requires IsHandle(s)
    ensures SocialHandle(s) == s
  {
    HandleFixed(s);
  }

  lemma TgFixed(tg: nat)
    requires tg > 0
    ensures CanonicalTg(ShowNat(tg)) == Some(tg)
  {
    ParseShow(tg);
  }

  lemma BuildAskingLink(l: Link)
    requires Canonical(l) && (l.FundLink? || l.VoteLink? || l.SignLink?)
    ensures Build(Asking(l)) == Some(l)
  {
    AddressFixed(if l.VoteLink? then l.governor else l.vault);
    TgFixed(l.tg);
    match l {
      case FundLink(kind, _, _, _) => KindNames(kind);
      case VoteLink(_, pid, _, _) => StripTrimmed(pid);
      case SignLink(_, _, _, _, _) =>
    }
  }

  lemma BuildAskingImage(l: Link)
    requires Canonical(l) && (l.ReceiptImage? || l.MemberImage? || l.AttribImage?)
    ensures Build(Asking(l)) == Some(l)
  {
    AddressFixed(l.vault);
    match l {
      case ReceiptImage(_, pid, ideaBy, _) =>
        DigitsTrimmed(pid);
        SocialFixed(ideaBy);
      case MemberImage(_, _, handle, _) => SocialFixed(handle);
      case AttribImage(_, _) =>
    }
  }

  /** Every canonical link is built from its own fields: the builders reach all of them, and canonical input is a fixed
      point. */
  lemma BuildAsking(l: Link)
    requires Canonical(l)
    ensures Build(Asking(l)) == Some(l)
  {
    if l.FundLink? || l.VoteLink? || l.SignLink? {
      BuildAskingLink(l);
    } else {
      BuildAskingImage(l);
    }
  }

  // ----- signatures, over any keyed hash that gives lower-case hex

  type Mac = string -> string

  /** `verify_link_signature`; `mac` is the HMAC under the secret. */
  predicate Verifies(mac: Mac, message: string, sig: string, ts: int, now: real, maxAge: int, skew: int) {
    && !(ts as real > now + skew as real || now - ts as real > maxAge as real)
    && mac(message) == Lower(Strip(sig))
  }

  predicate IsLowerHex(s: string) {
    |s| == 64 && AllHex(s) && forall i :: 0 <= i < |s| ==> LowerDone(s[i])
  }

  /** A link's own signature is accepted exactly within its time window; for any other link it is refused, unless the hash
      itself collides on the two messages. */
  lemma SignatureBinds(a: Link, b: Link, h: Digest, mac: Mac, ts: int, now: real, maxAge: int, skew: int)
    requires Canonical(a) && Canonical(b) && IsLowerHex(mac(Message(a, h)))
    ensures Verifies(mac, Message(b, h), mac(Message(a, h)), ts, now, maxAge, skew) <==>
              ts as real - skew as real <= now <= ts as real + maxAge as real
              && (a == b || (Message(a, h) != Message(b, h) && mac(Message(a, h)) == mac(Message(b, h))))
  {
    var sig := mac(Message(a, h));
    StripTrimmed(sig);
    LowerFixed(sig);
    if Message(a, h) == Message(b, h) {
      MessageInjective(a, b, h);
    }
  }
}
