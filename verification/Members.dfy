/** The member ledger over whole runs: numbering and addresses. */
module Members {
  import opened Text
  import opened Numerals
  import opened FundModel
  import opened Rules
  import opened Protocol
  import opened Evolution
  import opened ChainRace
  import Service

  predicate Numbered(m: Member, n: nat) {
    m.approved && m.memberNo == Some(n)
  }

  predicate Taken(members: seq<Member>, n: nat) {
    exists i :: 0 <= i < |members| && Numbered(members[i], n)
  }

  /** Approved members carry the numbers 1 to next - 1, each exactly once, and a valid address. */
  ghost predicate MembersOk(members: seq<Member>, next: nat) {
    && next >= 1
    && (forall i :: 0 <= i < |members| ==>
          if members[i].approved
          then members[i].memberNo.Some? && 1 <= members[i].memberNo.value < next && IsAddress(members[i].address)
          else members[i].memberNo.None?)
    && (forall i, j :: 0 <= i < j < |members| && members[i].approved && members[j].approved
          ==> members[i].memberNo != members[j].memberNo)
    && (forall n :: 1 <= n < next ==> Taken(members, n))
  }

  /** An address once given stays, and so does an approval with its number. */
  predicate Keeps(m: Member, k: Member) {
    && k.telegramId == m.telegramId
    && (m.address != "" ==> k.address == m.address)
    && (m.approved ==> k.approved && k.memberNo == m.memberNo)
  }

  predicate AllKeep(ms: seq<Member>, ks: seq<Member>) {
    |ms| <= |ks| && forall i :: 0 <= i < |ms| ==> Keeps(ms[i], ks[i])
  }

  /** Changing an unapproved member's address, or adding an unapproved member, keeps the numbering. */
  lemma UnapprovedKeepsMembersOk(members: seq<Member>, next: nat, ks: seq<Member>)
    requires MembersOk(members, next)
    requires |members| <= |ks| && forall i :: 0 <= i < |ks| ==>
               (i < |members| && ks[i] == members[i]) || (!ks[i].approved && ks[i].memberNo.None? && (i < |members| ==> !members[i].approved))
    ensures MembersOk(ks, next)
  {
    forall n | 1 <= n < next
      ensures Taken(ks, n)
    {
      assert Taken(members, n);
      var i :| 0 <= i < |members| && Numbered(members[i], n);
      assert Numbered(ks[i], n);
    }
  }

  /** Approving member i gives it the next number. */
  lemma ApprovalKeepsMembersOk(members: seq<Member>, next: nat, i: nat, m: Member)
    requires MembersOk(members, next) && i < |members| && !members[i].approved
    requires Numbered(m, next) && IsAddress(m.address)
    ensures MembersOk(members[i := m], next + 1)
  {
    var ks := members[i := m];
    forall n | 1 <= n < next + 1
      ensures Taken(ks, n)
    {
      if n == next {
        assert Numbered(ks[i], n);
      } else {
        assert Taken(members, n);
        var j :| 0 <= j < |members| && Numbered(members[j], n);
        assert Numbered(ks[j], n);
      }
    }
  }

  lemma RequestKeepsMembers(s: FundState, telegramId: string, address: string)
    requires MembersOk(s.members, s.nextMemberNo)
    ensures var o := Service.RequestMembership(s, telegramId, address);
            o.Done? ==> MembersOk(o.state.members, o.state.nextMemberNo) && AllKeep(s.members, o.state.members)
  {
    var o := Service.RequestMembership(s, telegramId, address);
    if o.Done? {
      assert forall i :: 0 <= i < |s.members| && s.members[i].address != "" ==> o.state.members[i] == s.members[i];
      assert forall i :: 0 <= i < |s.members| && s.members[i].approved ==> s.members[i].address != "";
      UnapprovedKeepsMembersOk(s.members, s.nextMemberNo, o.state.members);
    }
  }

  lemma ApproveKeepsMembers(s: FundState, actor: string, who: string, address: string, caller: Option<string>)
    requires MembersOk(s.members, s.nextMemberNo)
    ensures var o := Service.ApproveMember(s, actor, who, address, caller);
            o.Done? ==> MembersOk(o.state.members, o.state.nextMemberNo) && AllKeep(s.members, o.state.members)
  {
    var o := Service.ApproveMember(s, actor, who, address, caller);
    if o.Done? {
      var t := o.state.members;
      var found := Service.Known(s, who, address);
      var i := if found.None? then |s.members| else found.value;
      if found.None? {
        var m := Member(if IsAddress(who) then "" else who, if IsAddress(who) then who else address, false, None);
        var ms := s.members + [m];
        UnapprovedKeepsMembersOk(s.members, s.nextMemberNo, ms);
        ApprovalKeepsMembersOk(ms, s.nextMemberNo, i, t[i]);
        assert t == ms[i := t[i]];
      } else {
        ApprovalKeepsMembersOk(s.members, s.nextMemberNo, i, t[i]);
        assert t == s.members[i := t[i]];
      }
    }
  }

  lemma OthersKeepMembers(s: FundState, a: Action, now: Time)
    requires !a.RequestMembership? && !a.ApproveMember?
    ensures Next(s, a, now).members == s.members && Next(s, a, now).nextMemberNo == s.nextMemberNo
  {
    if ActsOnOneProposal(a) {
      ProposalStepKeepsMembers(s, a, now);
    } else if MovesClaims(a) || MovesAgents(a) {
      AgentStepKeepsMembers(s, a, now);
    }
  }

  lemma ProposalStepKeepsMembers(s: FundState, a: Action, now: Time)
    requires ActsOnOneProposal(a)
    ensures Next(s, a, now).members == s.members && Next(s, a, now).nextMemberNo == s.nextMemberNo
  {
    match a {
      case SetStatus(actor, ref, target, onchainId) =>
        if Apply(s, a, now).Done? {
          SetStatusDone(s, actor, ref, target, onchainId, now);
        }
      case RecordSettle(_, _, _) =>
      case _ =>
    }
  }

  lemma AgentStepKeepsMembers(s: FundState, a: Action, now: Time)
    requires MovesClaims(a) || MovesAgents(a)
    ensures Next(s, a, now).members == s.members && Next(s, a, now).nextMemberNo == s.nextMemberNo
  {
    match a {
      case RequestDraft(_, _, _) =>
      case DraftProposal(_, _) =>
      case _ =>
    }
  }

  lemma StepKeepsMembers(s: FundState, a: Action, now: Time)
    requires MembersOk(s.members, s.nextMemberNo)
    ensures var t := Next(s, a, now);
            MembersOk(t.members, t.nextMemberNo) && AllKeep(s.members, t.members)
  {
    match a {
      case RequestMembership(telegramId, address) => RequestKeepsMembers(s, telegramId, address);
      case ApproveMember(actor, who, address, caller) => ApproveKeepsMembers(s, actor, who, address, caller);
      case _ => OthersKeepMembers(s, a, now);
    }
  }

  lemma MoveKeepsMembers(s: FundState, m: Move)
    requires MembersOk(s.members, s.nextMemberNo)
    ensures var t := Made(s, m);
            MembersOk(t.members, t.nextMemberNo) && AllKeep(s.members, t.members)
  {
    if m.Act? {
      StepKeepsMembers(s, m.event.action, m.event.now);
    }
  }

  lemma {:induction false} RunKeepsMembersOk(s: FundState, moves: seq<Move>)
    requires MembersOk(s.members, s.nextMemberNo)
    ensures MembersOk(AfterMoves(s, moves).members, AfterMoves(s, moves).nextMemberNo)
  {
    if moves != [] {
      var n := |moves| - 1;
      RunKeepsMembersOk(s, moves[..n]);
      MoveKeepsMembers(AfterMoves(s, moves[..n]), moves[n]);
    }
  }

  lemma AllKeepTransitive(a: seq<Member>, b: seq<Member>, c: seq<Member>)
    requires AllKeep(a, b) && AllKeep(b, c)
    ensures AllKeep(a, c)
  {
    forall i | 0 <= i < |a|
      ensures Keeps(a[i], c[i])
    {
      assert Keeps(a[i], b[i]) && Keeps(b[i], c[i]);
    }
  }

  lemma StepOfRunKeeps(s: FundState, moves: seq<Move>, m: nat)
    requires MembersOk(s.members, s.nextMemberNo) && m < |moves|
    ensures AllKeep(AfterMoves(s, moves[..m]).members, AfterMoves(s, moves[..m + 1]).members)
  {
    RunKeepsMembersOk(s, moves[..m]);
    MovesStep(s, moves, m);
    MoveKeepsMembers(AfterMoves(s, moves[..m]), moves[m]);
  }

  lemma AllKeepReflexive(a: seq<Member>)
    ensures AllKeep(a, a)
  {}

  lemma {:induction false} MembersKept(s: FundState, moves: seq<Move>, k: nat, m: nat)
    requires MembersOk(s.members, s.nextMemberNo) && k <= m <= |moves|
    ensures AllKeep(AfterMoves(s, moves[..k]).members, AfterMoves(s, moves[..m]).members)
    decreases m
  {
    if k == m {
      AllKeepReflexive(AfterMoves(s, moves[..k]).members);
    } else {
      MembersKept(s, moves, k, m - 1);
      KeptOneMore(s, moves, m - 1, AfterMoves(s, moves[..k]).members);
    }
  }

  lemma KeptOneMore(s: FundState, moves: seq<Move>, m: nat, first: seq<Member>)
    requires MembersOk(s.members, s.nextMemberNo) && m < |moves| && AllKeep(first, AfterMoves(s, moves[..m]).members)
    ensures AllKeep(first, AfterMoves(s, moves[..m + 1]).members)
  {
    StepOfRunKeeps(s, moves, m);
    AllKeepTransitive(first, AfterMoves(s, moves[..m]).members, AfterMoves(s, moves[..m + 1]).members);
  }

  /** In every state reached by actions and late moves the approved members are numbered 1 to next - 1 without gaps or
      repeats, and along every run an approved member keeps its number and its (valid) address. */
  lemma MemberLedger(s: FundState, moves: seq<Move>, k: nat, m: nat)
    requires MembersOk(s.members, s.nextMemberNo) && k <= m <= |moves|
    ensures MembersOk(AfterMoves(s, moves[..m]).members, AfterMoves(s, moves[..m]).nextMemberNo)
    ensures AllKeep(AfterMoves(s, moves[..k]).members, AfterMoves(s, moves[..m]).members)
  {
    RunKeepsMembersOk(s, moves[..m]);
    MembersKept(s, moves, k, m);
  }

  /** A new fund has no members and hands out number 1 first. */
  lemma FreshMembersOk(s: FundState)
    requires Fresh(s)
    ensures MembersOk(s.members, s.nextMemberNo)
  {}
}
