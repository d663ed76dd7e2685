/** Every step of AbstractRaft keeps its invariant; Leader Completeness and agreement of
    everything committed follow. */
module AbstractSafety {
  import opened LogTypes
  import opened Membership
  import opened AbstractRaft

  /** What every step has in common: terms rise, history grows, and a node acknowledges only
      entries of the term it is in. */
  ghost predicate Evolves(s: Abs, s': Abs) {
    && Shape(s) && Shape(s')
    && s'.voters == s.voters
    && (forall n :: n in s.voters ==> s.term[n] <= s'.term[n])
    && (forall t, v :: (t, v) in s.ballots ==> (t, v) in s'.ballots && s'.ballots[(t, v)] == s.ballots[(t, v)])
    && (forall t :: t in s.chronicle ==>
          t in s'.chronicle && s.chronicle[t] <= s'.chronicle[t] && s'.leader[t] == s.leader[t])
    && (forall t, n :: (t, n) in s.acked ==> Acked(s, t, n) <= Acked(s', t, n))
    && (forall t, n :: (t, n) in s'.acked && n in s.voters && Acked(s', t, n) > Acked(s, t, n) ==> s.term[n] <= t)
  }

  lemma FaithfulEvolves(s: Abs, s': Abs, l: Log)
    requires Evolves(s, s') && Faithful(s, l)
    ensures Faithful(s', l)
  {
  }

  /** Possibilities only vanish: what may still be chosen could be chosen before. */
  lemma ChoosableShrinks(s: Abs, s': Abs, t: nat, i: nat)
    requires Evolves(s, s') && t in s.chronicle && i <= |s.chronicle[t]|
    requires Choosable(s', t, i)
    ensures Choosable(s, t, i)
    ensures s'.chronicle[t][..i] == s.chronicle[t][..i]
  {
    assert Able(s', t, i) <= Able(s, t, i);
    SubsetSize(Able(s', t, i), Able(s, t, i));
  }

  lemma ChosenGrows(s: Abs, s': Abs, t: nat, i: nat)
    requires Evolves(s, s') && Chosen(s, t, i)
    ensures Chosen(s', t, i)
    ensures s'.chronicle[t][..i] == s.chronicle[t][..i]
  {
    forall n | n in Holders(s, t, i) ensures n in Holders(s', t, i) {
      assert (t, n) in s.acked;
    }
    SubsetSize(Holders(s, t, i), Holders(s', t, i));
  }

  lemma ChosenChoosable(s: Abs, t: nat, i: nat)
    requires Shape(s) && Chosen(s, t, i)
    ensures Choosable(s, t, i)
  {
    SubsetSize(Holders(s, t, i), Able(s, t, i));
  }

  lemma SupportersGrow(s: Abs, s': Abs, t: nat, c: ServerId)
    requires Evolves(s, s') && IsQuorum(s, Supporters(s, t, c))
    ensures IsQuorum(s', Supporters(s', t, c))
  {
    SubsetSize(Supporters(s, t, c), Supporters(s', t, c));
  }

  lemma BacksEvolves(s: Abs, s': Abs, t: nat, b: Ballot)
    requires Evolves(s, s') && BacksCandidate(s, t, b)
    ensures BacksCandidate(s', t, b)
  {
  }

  // ---------------------------------------------------------------------------
  // One lemma per invariant, for whatever a step may do

  lemma KeepBallotsSound(s: Abs, s': Abs)
    requires Evolves(s, s') && BallotsSound(s)
    requires forall t, v :: (t, v) in s'.ballots && (t, v) !in s.ballots ==>
               v in s'.voters && t <= s'.term[v]
               && Faithful(s', s'.ballots[(t, v)].log) && BacksCandidate(s', t, s'.ballots[(t, v)])
    ensures BallotsSound(s')
  {
    forall t, v | (t, v) in s'.ballots
      ensures v in s'.voters && t <= s'.term[v]
              && Faithful(s', s'.ballots[(t, v)].log) && BacksCandidate(s', t, s'.ballots[(t, v)])
    {
      if (t, v) in s.ballots {
        FaithfulEvolves(s, s', s.ballots[(t, v)].log);
        BacksEvolves(s, s', t, s.ballots[(t, v)]);
      }
    }
  }

  lemma KeepLeadersElected(s: Abs, s': Abs)
    requires Evolves(s, s') && LeadersElected(s)
    requires forall t :: t in s'.chronicle && t !in s.chronicle ==>
               s'.leader[t] in s'.voters && IsQuorum(s', Supporters(s', t, s'.leader[t]))
    ensures LeadersElected(s')
  {
    forall t | t in s.chronicle ensures IsQuorum(s', Supporters(s', t, s'.leader[t])) {
      SupportersGrow(s, s', t, s.leader[t]);
    }
  }

  lemma KeepLogsFaithful(s: Abs, s': Abs)
    requires Evolves(s, s') && LogsFaithful(s)
    requires forall n :: n in s.voters ==>
               s'.log[n] == s.log[n] || (Faithful(s', s'.log[n]) && TermsAtMost(s'.log[n], s'.term[n]))
    ensures LogsFaithful(s')
  {
    forall n | n in s.voters ensures Faithful(s', s'.log[n]) && TermsAtMost(s'.log[n], s'.term[n]) {
      if s'.log[n] == s.log[n] {
        FaithfulEvolves(s, s', s.log[n]);
      }
    }
  }

  lemma KeepChroniclesFaithful(s: Abs, s': Abs)
    requires Evolves(s, s') && ChroniclesFaithful(s)
    requires forall t :: t in s'.chronicle && !(t in s.chronicle && s'.chronicle[t] == s.chronicle[t]) ==>
               Faithful(s', s'.chronicle[t]) && TermsAtMost(s'.chronicle[t], t)
               && Numbered(s'.chronicle[t], 1) && LastTerm(s'.chronicle[t]) == t
    ensures ChroniclesFaithful(s')
  {
    forall t | t in s.chronicle && s'.chronicle[t] == s.chronicle[t] ensures Faithful(s', s'.chronicle[t]) {
      FaithfulEvolves(s, s', s.chronicle[t]);
    }
  }

  /** A pair that is choosable after the step and was already on record before it. */
  ghost predicate Known(s: Abs, t: nat, i: nat) {
    t in s.chronicle && i <= |s.chronicle[t]|
  }

  /** Below a term that has a leader, only entries already on record are choosable. */
  ghost predicate OldOnly(s: Abs, s': Abs)
    requires Shape(s')
  {
    forall t0, t, i: nat :: t0 < t && t in s'.chronicle && Choosable(s', t0, i) ==> Known(s, t0, i)
  }

  lemma KeepComplete(s: Abs, s': Abs)
    requires Evolves(s, s') && Complete(s) && OldOnly(s, s')
    requires forall t0, t, i: nat :: t0 < t && t in s'.chronicle && t !in s.chronicle && Choosable(s', t0, i) ==>
               s'.chronicle[t0][..i] <= s'.chronicle[t]
    ensures Complete(s')
  {
    forall t0, t, i: nat | t0 < t && t in s'.chronicle && Choosable(s', t0, i)
      ensures s'.chronicle[t0][..i] <= s'.chronicle[t]
    {
      if t in s.chronicle {
        CompleteAt(s, s', t0, t, i);
      }
    }
  }

  lemma CompleteAt(s: Abs, s': Abs, t0: nat, t: nat, i: nat)
    requires Evolves(s, s') && Complete(s) && Known(s, t0, i)
    requires t0 < t && t in s.chronicle && Choosable(s', t0, i)
    ensures s'.chronicle[t0][..i] <= s'.chronicle[t]
  {
    ChoosableShrinks(s, s', t0, i);
    assert s.chronicle[t0][..i] <= s.chronicle[t];
  }

  /** Ballots and acknowledgements of older terms: nothing new can enter them. */
  lemma KeepAcksInBallots(s: Abs, s': Abs)
    requires Evolves(s, s') && AcksInBallots(s) && BallotsSound(s) && AcksSound(s)
    requires forall t, v, t0, i: nat ::
               (t, v) in s'.ballots && (t, v) !in s.ballots && t0 < t && Choosable(s', t0, i) && i <= Acked(s', t0, v) ==>
                 s'.chronicle[t0][..i] <= s'.ballots[(t, v)].log
    ensures AcksInBallots(s')
  {
    forall t, v, t0, i: nat
      | (t, v) in s'.ballots && t0 < t && Choosable(s', t0, i) && i <= Acked(s', t0, v)
      ensures s'.chronicle[t0][..i] <= s'.ballots[(t, v)].log
    {
      if (t, v) in s.ballots {
        AckFrozen(s, s', t0, v, i);
        ChoosableShrinks(s, s', t0, i);
      }
    }
  }

  /** A node past term t no longer acknowledges entries of t. */
  lemma AckFrozen(s: Abs, s': Abs, t: nat, n: ServerId, i: nat)
    requires Evolves(s, s') && AcksSound(s) && n in s.voters && t < s.term[n]
    requires 1 <= i <= Acked(s', t, n)
    ensures i <= Acked(s, t, n) && Known(s, t, i)
  {
  }

  // ---------------------------------------------------------------------------
  // Steps that leave logs alone: Bump, Campaign, Cast

  ghost predicate LogsUntouched(s: Abs, s': Abs) {
    s'.log == s.log && s'.chronicle == s.chronicle && s'.leader == s.leader && s'.acked == s.acked
  }

  /** A leader campaigned in its term, so its own term is at least that. */
  lemma LeaderCampaigned(s: Abs, t: nat)
    requires Shape(s) && BallotsSound(s) && LeadersElected(s) && t in s.chronicle
    ensures (t, s.leader[t]) in s.ballots && s.ballots[(t, s.leader[t])].candidate == s.leader[t]
    ensures s.leader[t] in s.voters && t <= s.term[s.leader[t]]
  {
    var q := Supporters(s, t, s.leader[t]);
    assert |q| > 0;
    var v :| v in q;
    assert BacksCandidate(s, t, s.ballots[(t, v)]);
  }

  lemma UntouchedLogs(s: Abs, s': Abs)
    requires Evolves(s, s') && LogsUntouched(s, s')
    requires LeadersElected(s) && LogsFaithful(s) && ChroniclesFaithful(s) && AcksSound(s)
    ensures LeadersElected(s') && LogsFaithful(s') && ChroniclesFaithful(s') && AcksSound(s')
  {
    KeepLeadersElected(s, s');
    KeepLogsFaithful(s, s');
    KeepChroniclesFaithful(s, s');
  }

  lemma UntouchedLeaders(s: Abs, s': Abs)
    requires Evolves(s, s') && LogsUntouched(s, s')
    requires BallotsSound(s) && LeadersElected(s) && LeadersHoldChronicle(s)
    ensures LeadersHoldChronicle(s')
  {
    forall t | t in s'.chronicle && s'.leader[t] in s'.voters && s'.term[s'.leader[t]] == t
      ensures s'.log[s'.leader[t]] == s'.chronicle[t]
    {
      LeaderCampaigned(s, t);
    }
  }

  lemma UntouchedComplete(s: Abs, s': Abs)
    requires Evolves(s, s') && LogsUntouched(s, s') && Complete(s)
    ensures Complete(s')
  {
    forall t0, t, i: nat | t0 < t && t in s'.chronicle && Choosable(s', t0, i) ensures Known(s, t0, i) {}
    KeepComplete(s, s');
  }

  lemma UntouchedAcksKept(s: Abs, s': Abs)
    requires Evolves(s, s') && LogsUntouched(s, s') && AcksKept(s) && AcksSound(s)
    ensures AcksKept(s')
  {
    forall n, t, i: nat
      | n in s'.voters && t in s'.chronicle && i <= Acked(s', t, n) && i <= |s'.chronicle[t]|
        && (t == s'.term[n] || Choosable(s', t, i))
      ensures s'.chronicle[t][..i] <= s'.log[n]
    {
      if i > 0 && t != s.term[n] {
        assert (t, n) in s.acked;
        ChoosableShrinks(s, s', t, i);
      }
    }
  }

  lemma UntouchedInv(s: Abs, s': Abs)
    requires Inv(s) && Evolves(s, s') && LogsUntouched(s, s')
    ensures LeadersElected(s') && LogsFaithful(s') && ChroniclesFaithful(s') && AcksSound(s')
    ensures LeadersHoldChronicle(s') && Complete(s') && AcksKept(s')
  {
    UntouchedLogs(s, s');
    UntouchedLeaders(s, s');
    UntouchedComplete(s, s');
    UntouchedAcksKept(s, s');
  }

  lemma BumpEvolves(s: Abs, n: ServerId, t: nat)
    requires Shape(s) && n in s.voters && s.term[n] < t
    ensures Evolves(s, Bump(s, n, t))
  {
  }

  lemma BumpKeepsInv(s: Abs, n: ServerId, t: nat)
    requires Inv(s) && n in s.voters && s.term[n] < t
    ensures Evolves(s, Bump(s, n, t)) && Inv(Bump(s, n, t))
  {
    var s' := Bump(s, n, t);
    BumpEvolves(s, n, t);
    UntouchedInv(s, s');
    KeepBallotsSound(s, s');
    KeepAcksInBallots(s, s');
  }

  lemma CampaignEvolves(s: Abs, n: ServerId)
    requires Shape(s) && BallotsSound(s) && n in s.voters
    ensures Evolves(s, Campaign(s, n))
    ensures (s.term[n] + 1, n) !in s.ballots
  {
  }

  /** The log a node votes with holds everything it acknowledged that may still be chosen. */
  lemma NewBallotHasAcks(s: Abs, s': Abs, t: nat, v: ServerId)
    requires Evolves(s, s') && LogsUntouched(s, s') && v in s.voters
    requires s'.ballots.Keys == s.ballots.Keys + {(t, v)}
    requires s'.ballots[(t, v)].log == s.log[v]
    requires AcksKept(s) && AcksSound(s) && AcksInBallots(s) && BallotsSound(s)
    ensures AcksInBallots(s')
  {
    forall u, w, t0, i: nat
      | (u, w) in s'.ballots && (u, w) !in s.ballots && t0 < u && Choosable(s', t0, i) && i <= Acked(s', t0, w)
      ensures s'.chronicle[t0][..i] <= s'.ballots[(u, w)].log
    {
      ChoosableShrinks(s, s', t0, i);
    }
    KeepAcksInBallots(s, s');
  }

  lemma CampaignBallot(s: Abs, n: ServerId)
    requires Shape(s) && BallotsSound(s) && LogsFaithful(s) && CandidatesKeepLog(s) && n in s.voters
    ensures BallotsSound(Campaign(s, n)) && CandidatesKeepLog(Campaign(s, n))
  {
    var s' := Campaign(s, n);
    CampaignEvolves(s, n);
    FaithfulEvolves(s, s', s.log[n]);
    KeepBallotsSound(s, s');
  }

  lemma CampaignAcks(s: Abs, n: ServerId)
    requires Shape(s) && AcksKept(s) && AcksSound(s) && AcksInBallots(s) && BallotsSound(s) && n in s.voters
    ensures AcksInBallots(Campaign(s, n))
  {
    CampaignEvolves(s, n);
    NewBallotHasAcks(s, Campaign(s, n), s.term[n] + 1, n);
  }

  lemma CampaignKeepsInv(s: Abs, n: ServerId)
    requires Inv(s) && n in s.voters
    ensures Evolves(s, Campaign(s, n)) && Inv(Campaign(s, n))
  {
    CampaignEvolves(s, n);
    CampaignBallot(s, n);
    CampaignAcks(s, n);
    UntouchedInv(s, Campaign(s, n));
  }

  lemma CastEvolves(s: Abs, v: ServerId, c: ServerId)
    requires Shape(s) && CanCast(s, v, c)
    ensures Evolves(s, Cast(s, v, c))
  {
  }

  lemma CastBallot(s: Abs, v: ServerId, c: ServerId)
    requires Shape(s) && BallotsSound(s) && LogsFaithful(s) && CandidatesKeepLog(s) && CanCast(s, v, c)
    ensures BallotsSound(Cast(s, v, c)) && CandidatesKeepLog(Cast(s, v, c))
  {
    var s' := Cast(s, v, c);
    CastEvolves(s, v, c);
    FaithfulEvolves(s, s', s.log[v]);
    assert BacksCandidate(s, s.term[v], s.ballots[(s.term[v], c)]);
    assert BacksCandidate(s', s.term[v], s'.ballots[(s.term[v], v)]);
    KeepBallotsSound(s, s');
  }

  lemma CastAcks(s: Abs, v: ServerId, c: ServerId)
    requires Shape(s) && AcksKept(s) && AcksSound(s) && AcksInBallots(s) && BallotsSound(s) && CanCast(s, v, c)
    ensures AcksInBallots(Cast(s, v, c))
  {
    CastEvolves(s, v, c);
    NewBallotHasAcks(s, Cast(s, v, c), s.term[v], v);
  }

  lemma CastKeepsInv(s: Abs, v: ServerId, c: ServerId)
    requires Inv(s) && CanCast(s, v, c)
    ensures Evolves(s, Cast(s, v, c)) && Inv(Cast(s, v, c))
  {
    CastEvolves(s, v, c);
    CastBallot(s, v, c);
    CastAcks(s, v, c);
    UntouchedInv(s, Cast(s, v, c));
  }

  // ---------------------------------------------------------------------------
  // Accept

  lemma AcceptEvolves(s: Abs, n: ServerId, hi: nat)
    requires Shape(s) && CanAccept(s, n, hi)
    ensures Evolves(s, Accept(s, n, hi))
  {
  }

  lemma AcceptLogs(s: Abs, n: ServerId, hi: nat)
    requires Shape(s) && LogsFaithful(s) && ChroniclesFaithful(s) && LeadersHoldChronicle(s) && AcksSound(s)
    requires CanAccept(s, n, hi)
    ensures Shape(Accept(s, n, hi)) && LogsFaithful(Accept(s, n, hi)) && ChroniclesFaithful(Accept(s, n, hi))
  {
    var s' := Accept(s, n, hi);
    AcceptEvolves(s, n, hi);
    MergeFaithful(s, n, hi);
    FaithfulEvolves(s, s', s'.log[n]);
    KeepLogsFaithful(s, s');
    KeepChroniclesFaithful(s, s');
  }

  lemma AcceptElections(s: Abs, n: ServerId, hi: nat)
    requires Shape(s) && CanAccept(s, n, hi) && Evolves(s, Accept(s, n, hi)) && BallotsSound(s) && LeadersElected(s)
    ensures BallotsSound(Accept(s, n, hi)) && LeadersElected(Accept(s, n, hi))
  {
    KeepBallotsSound(s, Accept(s, n, hi));
    KeepLeadersElected(s, Accept(s, n, hi));
  }

  lemma AcceptHolders(s: Abs, n: ServerId, hi: nat)
    requires Shape(s) && LeadersHoldChronicle(s) && CandidatesKeepLog(s) && AcksSound(s) && CanAccept(s, n, hi)
    ensures var s' := Accept(s, n, hi);
            LeadersHoldChronicle(s') && CandidatesKeepLog(s') && AcksSound(s')
  {
  }

  lemma AcceptAcksKept(s: Abs, n: ServerId, hi: nat)
    requires Shape(s) && AcksKept(s) && AcksSound(s) && Complete(s) && CanAccept(s, n, hi)
    ensures AcksKept(Accept(s, n, hi))
  {
    var s' := Accept(s, n, hi);
    AcceptEvolves(s, n, hi);
    forall m, t, i: nat
      | m in s'.voters && t in s'.chronicle && i <= Acked(s', t, m) && i <= |s'.chronicle[t]|
        && (t == s'.term[m] || Choosable(s', t, i))
      ensures s'.chronicle[t][..i] <= s'.log[m]
    {
      if i > 0 {
        AcceptAckAt(s, n, hi, m, t, i);
      }
    }
  }

  lemma AcceptAckAt(s: Abs, n: ServerId, hi: nat, m: ServerId, t: nat, i: nat)
    requires Shape(s) && AcksKept(s) && AcksSound(s) && Complete(s) && CanAccept(s, n, hi)
    requires m in s.voters && t in s.chronicle && 1 <= i <= |s.chronicle[t]| && i <= Acked(Accept(s, n, hi), t, m)
    requires Evolves(s, Accept(s, n, hi))
    requires t == s.term[m] || Choosable(Accept(s, n, hi), t, i)
    ensures s.chronicle[t][..i] <= Accept(s, n, hi).log[m]
  {
    var s' := Accept(s, n, hi);
    var p, u := s.chronicle[t][..i], s.term[n];
    if t != s.term[m] {
      ChoosableShrinks(s, s', t, i);
    }
    if i <= Acked(s, t, m) {
      assert p <= s.log[m];
      if m == n {
        assert p <= s.chronicle[u];
        MergeKeeps(p, s.log[n], s.chronicle[u], hi);
      }
    } else {
      assert m == n && t == u && i <= hi;
      assert p <= s.chronicle[u][..hi];
    }
  }

  lemma AcceptComplete(s: Abs, n: ServerId, hi: nat)
    requires Shape(s) && Complete(s) && AcksInBallots(s) && BallotsSound(s) && AcksSound(s) && CanAccept(s, n, hi)
    ensures AcksInBallots(Accept(s, n, hi)) && Complete(Accept(s, n, hi))
  {
    var s' := Accept(s, n, hi);
    AcceptEvolves(s, n, hi);
    KeepAcksInBallots(s, s');
    forall t0, t, i: nat | t0 < t && t in s'.chronicle && Choosable(s', t0, i) ensures Known(s, t0, i) {}
    KeepComplete(s, s');
  }

  lemma AcceptKeepsInv(s: Abs, n: ServerId, hi: nat)
    requires Inv(s) && CanAccept(s, n, hi)
    ensures Evolves(s, Accept(s, n, hi)) && Inv(Accept(s, n, hi))
  {
    AcceptEvolves(s, n, hi);
    AcceptLogs(s, n, hi);
    AcceptElections(s, n, hi);
    AcceptHolders(s, n, hi);
    AcceptAcksKept(s, n, hi);
    AcceptComplete(s, n, hi);
  }

  // ---------------------------------------------------------------------------
  // Extend

  lemma ExtendEvolves(s: Abs, n: ServerId, es: Log)
    requires Shape(s) && LeadersHoldChronicle(s) && AcksSound(s) && CanExtend(s, n, es)
    ensures Evolves(s, Extend(s, n, es))
  {
    var s' := Extend(s, n, es);
    assert s.log[n] == s.chronicle[s.term[n]];
    forall t | t in s.chronicle ensures s.chronicle[t] <= s'.chronicle[t] {}
  }

  lemma ExtendedChronicle(s: Abs, n: ServerId, es: Log)
    requires Shape(s) && CanExtend(s, n, es) && Evolves(s, Extend(s, n, es))
    requires Faithful(s, s.log[n]) && TermsAtMost(s.log[n], s.term[n])
    requires Numbered(s.log[n], 1) && LastTerm(s.log[n]) == s.term[n]
    ensures var s', l := Extend(s, n, es), s.log[n] + es;
            Faithful(s', l) && TermsAtMost(l, s.term[n]) && Numbered(l, 1) && LastTerm(l) == s.term[n]
  {
    FaithfulEvolves(s, Extend(s, n, es), s.log[n]);
    FaithfulAppend(Extend(s, n, es), s.log[n], es, s.term[n]);
  }

  lemma ExtendLogs(s: Abs, n: ServerId, es: Log)
    requires Shape(s) && CanExtend(s, n, es) && Evolves(s, Extend(s, n, es)) && LogsFaithful(s)
    requires Faithful(Extend(s, n, es), s.log[n] + es) && TermsAtMost(s.log[n] + es, s.term[n])
    ensures LogsFaithful(Extend(s, n, es))
  {
    KeepLogsFaithful(s, Extend(s, n, es));
  }

  lemma ExtendChronicles(s: Abs, n: ServerId, es: Log)
    requires Shape(s) && CanExtend(s, n, es) && Evolves(s, Extend(s, n, es)) && ChroniclesFaithful(s)
    requires var s', l := Extend(s, n, es), s.log[n] + es;
             Faithful(s', l) && TermsAtMost(l, s.term[n]) && Numbered(l, 1) && LastTerm(l) == s.term[n]
    ensures ChroniclesFaithful(Extend(s, n, es))
  {
    KeepChroniclesFaithful(s, Extend(s, n, es));
  }

  lemma ExtendElections(s: Abs, n: ServerId, es: Log)
    requires Shape(s) && CanExtend(s, n, es) && Evolves(s, Extend(s, n, es)) && BallotsSound(s) && LeadersElected(s)
    ensures BallotsSound(Extend(s, n, es)) && LeadersElected(Extend(s, n, es))
  {
    KeepBallotsSound(s, Extend(s, n, es));
    KeepLeadersElected(s, Extend(s, n, es));
  }

  lemma ExtendHolders(s: Abs, n: ServerId, es: Log)
    requires Shape(s) && LeadersHoldChronicle(s) && CandidatesKeepLog(s) && AcksSound(s) && CanExtend(s, n, es)
    ensures var s' := Extend(s, n, es);
            LeadersHoldChronicle(s') && CandidatesKeepLog(s') && AcksSound(s')
  {
  }

  lemma ExtendAckAt(s: Abs, n: ServerId, es: Log, m: ServerId, t: nat, i: nat)
    requires Shape(s) && AcksKept(s) && AcksSound(s) && LeadersHoldChronicle(s) && CanExtend(s, n, es)
    requires var s' := Extend(s, n, es);
             m in s.voters && t in s.chronicle && 1 <= i <= |s'.chronicle[t]| && i <= Acked(s', t, m)
             && Evolves(s, s') && (t == s.term[m] || Choosable(s', t, i))
    ensures var s' := Extend(s, n, es); s'.chronicle[t][..i] <= s'.log[m]
  {
    var s' := Extend(s, n, es);
    if m == n && t == s.term[n] {
      assert s'.log[n] == s'.chronicle[t];
    } else {
      assert Acked(s', t, m) == Acked(s, t, m) && (t, m) in s.acked;
      if t != s.term[m] {
        ChoosableShrinks(s, s', t, i);
      }
      assert s.chronicle[t][..i] <= s.log[m];
      assert s'.chronicle[t][..i] == s.chronicle[t][..i];
      if m == n {
        assert s.log[n] <= s'.log[n];
      }
    }
  }

  lemma ExtendAcksKept(s: Abs, n: ServerId, es: Log)
    requires Shape(s) && AcksKept(s) && AcksSound(s) && LeadersHoldChronicle(s) && CanExtend(s, n, es)
    ensures AcksKept(Extend(s, n, es))
  {
    var s' := Extend(s, n, es);
    ExtendEvolves(s, n, es);
    forall m, t, i: nat
      | m in s'.voters && t in s'.chronicle && i <= Acked(s', t, m) && i <= |s'.chronicle[t]|
        && (t == s'.term[m] || Choosable(s', t, i))
      ensures s'.chronicle[t][..i] <= s'.log[m]
    {
      if i > 0 {
        ExtendAckAt(s, n, es, m, t, i);
      }
    }
  }

  /** Entries appended after a later leader was elected can no longer be chosen: any quorum
      contains a voter of the later term, which has stopped acknowledging. */
  lemma ExtendOldOnly(s: Abs, n: ServerId, es: Log, t0: nat, t: nat, i: nat)
    requires Shape(s) && BallotsSound(s) && LeadersElected(s) && AcksSound(s)
    requires CanExtend(s, n, es) && t0 < t && t in s.chronicle
    requires Shape(Extend(s, n, es)) && Choosable(Extend(s, n, es), t0, i)
    ensures Known(s, t0, i)
  {
    var s' := Extend(s, n, es);
    var v := VoterOf(s, t, Able(s', t0, i));
    assert v != n || t0 != s.term[n];
    assert Acked(s', t0, v) == Acked(s, t0, v);
    assert (t0, v) in s.acked;
  }

  lemma ExtendOnlyOld(s: Abs, n: ServerId, es: Log)
    requires Inv(s) && CanExtend(s, n, es) && Shape(Extend(s, n, es))
    ensures OldOnly(s, Extend(s, n, es))
  {
    forall t0, t, i: nat | t0 < t && t in s.chronicle && Choosable(Extend(s, n, es), t0, i) ensures Known(s, t0, i) {
      ExtendOldOnly(s, n, es, t0, t, i);
    }
  }

  lemma ExtendComplete(s: Abs, n: ServerId, es: Log)
    requires Shape(s) && CanExtend(s, n, es) && Evolves(s, Extend(s, n, es))
    requires AcksInBallots(s) && BallotsSound(s) && AcksSound(s) && Complete(s) && OldOnly(s, Extend(s, n, es))
    ensures AcksInBallots(Extend(s, n, es)) && Complete(Extend(s, n, es))
  {
    KeepAcksInBallots(s, Extend(s, n, es));
    KeepComplete(s, Extend(s, n, es));
  }

  lemma ExtendKeepsInv(s: Abs, n: ServerId, es: Log)
    requires Inv(s) && CanExtend(s, n, es)
    ensures Evolves(s, Extend(s, n, es)) && Inv(Extend(s, n, es))
  {
    ExtendEvolves(s, n, es);
    ExtendedChronicle(s, n, es);
    ExtendLogs(s, n, es);
    ExtendChronicles(s, n, es);
    ExtendElections(s, n, es);
    ExtendHolders(s, n, es);
    ExtendAcksKept(s, n, es);
    ExtendOnlyOld(s, n, es);
    ExtendComplete(s, n, es);
  }

  // ---------------------------------------------------------------------------
  // Win

  /** A winner holds the log it campaigned with, all of it from earlier terms. */
  lemma WinnerLog(s: Abs, n: ServerId, e: LogEntry)
    requires Shape(s) && BallotsSound(s) && CandidatesKeepLog(s) && CanWin(s, n, e)
    ensures (s.term[n], n) in s.ballots && s.log[n] == s.ballots[(s.term[n], n)].log
    ensures s.term[n] > 0 && TermsAtMost(s.log[n], s.term[n] - 1)
  {
    var q := Supporters(s, s.term[n], n);
    assert |q| > 0;
    var v :| v in q;
    assert BacksCandidate(s, s.term[n], s.ballots[(s.term[n], v)]);
  }

  /** The election restriction carries a prefix of term t0 from the voter's log to the
      candidate's, given that the leader of the candidate's last term already has it. */
  lemma RestrictionCarries(s: Abs, voterLog: Log, candLog: Log, t0: nat, p: Log)
    requires ChroniclesFaithful(s) && p != [] && p[|p| - 1].term == t0 && TermsAtMost(p, t0)
    requires Faithful(s, voterLog) && Faithful(s, candLog) && UpToDate(candLog, voterLog)
    requires p <= voterLog
    requires forall u :: t0 < u && u in s.chronicle ==> p <= s.chronicle[u]
    ensures p <= candLog
  {
    var a, b := |candLog| - 1, |voterLog| - 1;
    assert voterLog[|p| - 1] == p[|p| - 1];
    FaithfulMonotone(s, voterLog, |p| - 1, b);
    var u := candLog[a].term;
    assert candLog[..a + 1] == candLog && candLog <= s.chronicle[u];
    if u == voterLog[b].term {
      assert voterLog[..b + 1] == voterLog && voterLog <= s.chronicle[u];
    } else if a < |p| - 1 {
      assert false;
    }
  }

  lemma ChoosablePrefix(s: Abs, t0: nat, i: nat)
    requires Shape(s) && ChroniclesFaithful(s) && Complete(s) && Choosable(s, t0, i)
    ensures var p := s.chronicle[t0][..i];
            && p != [] && p[|p| - 1].term == t0 && TermsAtMost(p, t0)
            && forall u :: t0 < u && u in s.chronicle ==> p <= s.chronicle[u]
  {
  }

  /** Leader Completeness at the moment of election. */
  lemma WinnerComplete(s: Abs, n: ServerId, e: LogEntry, t0: nat, i: nat)
    requires Inv(s) && CanWin(s, n, e) && t0 < s.term[n] && Choosable(s, t0, i)
    ensures s.chronicle[t0][..i] <= s.log[n]
  {
    var t := s.term[n];
    WinnerLog(s, n, e);
    var v := QuorumsMeet(s, Supporters(s, t, n), Able(s, t0, i));
    var b := s.ballots[(t, v)];
    assert BacksCandidate(s, t, b);
    assert Acked(s, t0, v) >= i;
    ChoosablePrefix(s, t0, i);
    RestrictionCarries(s, b.log, s.log[n], t0, s.chronicle[t0][..i]);
  }

  lemma WinEvolves(s: Abs, n: ServerId, e: LogEntry)
    requires Shape(s) && AcksSound(s) && CanWin(s, n, e)
    ensures Evolves(s, Win(s, n, e))
  {
    var s' := Win(s, n, e);
    forall t, m | (t, m) in s.acked ensures Acked(s, t, m) <= Acked(s', t, m) {
      assert t in s.chronicle;
    }
  }

  lemma WonChronicle(s: Abs, n: ServerId, e: LogEntry)
    requires Shape(s) && CanWin(s, n, e) && Evolves(s, Win(s, n, e)) && Faithful(s, s.log[n])
    requires TermsAtMost(s.log[n], s.term[n]) && Numbered(s.log[n], 1)
    ensures var s', l := Win(s, n, e), s.log[n] + [e];
            Faithful(s', l) && TermsAtMost(l, s.term[n]) && Numbered(l, 1) && LastTerm(l) == s.term[n]
  {
    FaithfulEvolves(s, Win(s, n, e), s.log[n]);
    FaithfulAppend(Win(s, n, e), s.log[n], [e], s.term[n]);
  }

  lemma WinLogs(s: Abs, n: ServerId, e: LogEntry)
    requires Shape(s) && CanWin(s, n, e) && Evolves(s, Win(s, n, e)) && LogsFaithful(s)
    requires Faithful(Win(s, n, e), s.log[n] + [e]) && TermsAtMost(s.log[n] + [e], s.term[n])
    ensures LogsFaithful(Win(s, n, e))
  {
    KeepLogsFaithful(s, Win(s, n, e));
  }

  lemma WinChronicles(s: Abs, n: ServerId, e: LogEntry)
    requires Shape(s) && CanWin(s, n, e) && Evolves(s, Win(s, n, e)) && ChroniclesFaithful(s)
    requires var s', l := Win(s, n, e), s.log[n] + [e];
             Faithful(s', l) && TermsAtMost(l, s.term[n]) && Numbered(l, 1) && LastTerm(l) == s.term[n]
    ensures ChroniclesFaithful(Win(s, n, e))
  {
    KeepChroniclesFaithful(s, Win(s, n, e));
  }

  lemma WinElections(s: Abs, n: ServerId, e: LogEntry)
    requires Shape(s) && CanWin(s, n, e) && Evolves(s, Win(s, n, e)) && BallotsSound(s) && LeadersElected(s)
    ensures BallotsSound(Win(s, n, e)) && LeadersElected(Win(s, n, e))
  {
    var s' := Win(s, n, e);
    KeepBallotsSound(s, s');
    SupportersGrow(s, s', s.term[n], n);
    KeepLeadersElected(s, s');
  }

  lemma WinHolders(s: Abs, n: ServerId, e: LogEntry)
    requires Shape(s) && LeadersHoldChronicle(s) && CandidatesKeepLog(s) && AcksSound(s) && CanWin(s, n, e)
    ensures var s' := Win(s, n, e);
            LeadersHoldChronicle(s') && CandidatesKeepLog(s') && AcksSound(s')
  {
  }

  lemma WinAckAt(s: Abs, n: ServerId, e: LogEntry, m: ServerId, t: nat, i: nat)
    requires Shape(s) && AcksKept(s) && AcksSound(s) && CanWin(s, n, e)
    requires var s' := Win(s, n, e);
             m in s.voters && t in s'.chronicle && 1 <= i <= |s'.chronicle[t]| && i <= Acked(s', t, m)
             && Evolves(s, s') && (t == s.term[m] || Choosable(s', t, i))
    ensures var s' := Win(s, n, e); s'.chronicle[t][..i] <= s'.log[m]
  {
    var s' := Win(s, n, e);
    if m == n && t == s.term[n] {
      assert s'.log[n] == s'.chronicle[t];
    } else {
      assert (t, m) in s.acked;
      if t != s.term[m] {
        ChoosableShrinks(s, s', t, i);
      }
      assert s.chronicle[t][..i] <= s.log[m];
      if m == n {
        assert s.log[n] <= s'.log[n];
      }
    }
  }

  lemma WinAcksKept(s: Abs, n: ServerId, e: LogEntry)
    requires Shape(s) && AcksKept(s) && AcksSound(s) && CanWin(s, n, e) && Evolves(s, Win(s, n, e))
    ensures AcksKept(Win(s, n, e))
  {
    var s' := Win(s, n, e);
    forall m, t, i: nat
      | m in s'.voters && t in s'.chronicle && i <= Acked(s', t, m) && i <= |s'.chronicle[t]|
        && (t == s'.term[m] || Choosable(s', t, i))
      ensures s'.chronicle[t][..i] <= s'.log[m]
    {
      if i > 0 {
        WinAckAt(s, n, e, m, t, i);
      }
    }
  }

  lemma WinOldOnly(s: Abs, n: ServerId, e: LogEntry, t0: nat, t: nat, i: nat)
    requires Shape(s) && BallotsSound(s) && LeadersElected(s) && AcksSound(s)
    requires CanWin(s, n, e) && Evolves(s, Win(s, n, e)) && t0 < t && t in Win(s, n, e).chronicle
    requires Choosable(Win(s, n, e), t0, i)
    ensures Known(s, t0, i)
  {
    var s' := Win(s, n, e);
    if t0 == s.term[n] {
      var v := VoterOf(s, t, Able(s', t0, i));
      assert false;
    }
  }

  lemma WinOnlyOld(s: Abs, n: ServerId, e: LogEntry)
    requires Inv(s) && CanWin(s, n, e) && Evolves(s, Win(s, n, e))
    ensures OldOnly(s, Win(s, n, e))
  {
    forall t0, t, i: nat | t0 < t && t in Win(s, n, e).chronicle && Choosable(Win(s, n, e), t0, i) ensures Known(s, t0, i) {
      WinOldOnly(s, n, e, t0, t, i);
    }
  }

  lemma WinCompleteAt(s: Abs, n: ServerId, e: LogEntry, t0: nat, i: nat)
    requires Inv(s) && CanWin(s, n, e) && Evolves(s, Win(s, n, e)) && t0 < s.term[n]
    requires Known(s, t0, i) && Choosable(Win(s, n, e), t0, i)
    ensures Win(s, n, e).chronicle[t0][..i] <= s.log[n] + [e]
  {
    ChoosableShrinks(s, Win(s, n, e), t0, i);
    WinnerComplete(s, n, e, t0, i);
  }

  lemma WinComplete(s: Abs, n: ServerId, e: LogEntry)
    requires Inv(s) && CanWin(s, n, e) && Evolves(s, Win(s, n, e)) && OldOnly(s, Win(s, n, e))
    ensures Complete(Win(s, n, e))
  {
    var s' := Win(s, n, e);
    forall t0, t, i: nat | t0 < t && t in s'.chronicle && t !in s.chronicle && Choosable(s', t0, i)
      ensures s'.chronicle[t0][..i] <= s'.chronicle[t]
    {
      WinCompleteAt(s, n, e, t0, i);
    }
    KeepComplete(s, s');
  }

  lemma WinAcksInBallots(s: Abs, n: ServerId, e: LogEntry)
    requires Shape(s) && CanWin(s, n, e) && Evolves(s, Win(s, n, e))
    requires AcksInBallots(s) && BallotsSound(s) && AcksSound(s)
    ensures AcksInBallots(Win(s, n, e))
  {
    KeepAcksInBallots(s, Win(s, n, e));
  }

  lemma WinKeepsInv(s: Abs, n: ServerId, e: LogEntry)
    requires Inv(s) && CanWin(s, n, e)
    ensures Evolves(s, Win(s, n, e)) && Inv(Win(s, n, e))
  {
    WinEvolves(s, n, e);
    FaithfulNumbered(s, s.log[n]);
    WonChronicle(s, n, e);
    WinLogs(s, n, e);
    WinChronicles(s, n, e);
    WinElections(s, n, e);
    WinHolders(s, n, e);
    WinAcksKept(s, n, e);
    WinAcksInBallots(s, n, e);
    WinOnlyOld(s, n, e);
    WinComplete(s, n, e);
  }

  // ---------------------------------------------------------------------------
  // Agreement

  lemma StartInv(voters: set<ServerId>)
    ensures Inv(Start(voters))
  {
  }

  /** p is a prefix of the first i entries of term t's chronicle, and those are committed. */
  ghost predicate Covers(s: Abs, p: Log, t: nat, i: nat) {
    Chosen(s, t, i) && |p| <= i && p <= s.chronicle[t]
  }

  /** A log prefix covered by something committed no later than term `bound`. */
  ghost predicate Committed(s: Abs, p: Log, bound: nat) {
    p == [] || exists t: nat, i: nat :: t <= bound && Covers(s, p, t, i)
  }

  lemma CoveredByLater(s: Abs, p: Log, t0: nat, i: nat, t: nat)
    requires Shape(s) && Complete(s) && Covers(s, p, t0, i) && t0 <= t && t in s.chronicle
    ensures p <= s.chronicle[t]
  {
    if t0 < t {
      ChosenChoosable(s, t0, i);
      assert s.chronicle[t0][..i] <= s.chronicle[t];
      assert p == s.chronicle[t0][..i][..|p|];
    }
  }

  /** Leader Completeness: what is committed by term `bound` is in the chronicle of every leader
      of that term or a later one. */
  lemma LeaderCompleteness(s: Abs, p: Log, bound: nat, t: nat)
    requires Inv(s) && Committed(s, p, bound) && bound <= t && t in s.chronicle
    ensures p <= s.chronicle[t]
  {
    if p != [] {
      var t0: nat, i: nat :| t0 <= bound && Covers(s, p, t0, i);
      CoveredByLater(s, p, t0, i, t);
    }
  }

  /** Any two committed prefixes agree wherever both reach. */
  lemma CommittedAgree(s: Abs, p: Log, q: Log, b1: nat, b2: nat)
    requires Inv(s) && Committed(s, p, b1) && Committed(s, q, b2)
    ensures p <= q || q <= p
  {
    if p != [] && q != [] {
      var t: nat, i: nat :| t <= b1 && Covers(s, p, t, i);
      var u: nat, j: nat :| u <= b2 && Covers(s, q, u, j);
      if t <= u {
        CoveredByLater(s, p, t, i, u);
      } else {
        CoveredByLater(s, q, u, j, t);
      }
    }
  }

  lemma CommittedEvolves(s: Abs, s': Abs, p: Log, bound: nat, bound': nat)
    requires Evolves(s, s') && Committed(s, p, bound) && bound <= bound'
    ensures Committed(s', p, bound')
  {
    if p != [] {
      var t: nat, i: nat :| t <= bound && Covers(s, p, t, i);
      ChosenGrows(s, s', t, i);
      assert Covers(s', p, t, i);
    }
  }
}
