/** Every step of RaftCore keeps the invariant; hence it holds in every run. */
module RaftCoreSteps {
  import opened RaftTypes
  import opened RaftCore

  // ----- shape -----

  lemma ReignShapeExtends(c: Core, d: Core, t: nat)
    requires Extends(c, d) && Reigning(c, t) && ReignShape(c, t)
    ensures ReignShape(d, t)
  {
    PrefixTransitive(c.cand[Seat(t, c.reigns[t].leader)], c.reigns[t].log, d.reigns[t].log);
  }

  lemma ReignsShaped(c: Core, e: Event)
    requires Shape(c) && Enabled(c, e)
    ensures forall t: nat :: Reigning(Apply(c, e), t) ==> ReignShape(Apply(c, e), t)
  {
    var d := Apply(c, e);
    StepExtends(c, e);
    forall t: nat | Reigning(d, t) ensures ReignShape(d, t) {
      if Reigning(c, t) {
        ReignShapeExtends(c, d, t);
      } else {
        assert Standing(c, Seat(t, e.s)) && CandShape(c, Seat(t, e.s));
      }
    }
  }

  lemma BallotsShaped(c: Core, e: Event)
    requires Shape(c) && Enabled(c, e)
    ensures forall k :: HasVoted(Apply(c, e), k) ==> BallotShape(Apply(c, e), k)
  {
    var d := Apply(c, e);
    StepExtends(c, e);
    forall k | HasVoted(d, k) ensures BallotShape(d, k) {
      if HasVoted(c, k) {
        assert BallotShape(c, k);
      }
    }
  }

  lemma CandidatesShaped(c: Core, e: Event)
    requires Shape(c) && TermBounds(c) && Enabled(c, e)
    ensures forall k :: Standing(Apply(c, e), k) ==> CandShape(Apply(c, e), k)
  {
    var d := Apply(c, e);
    StepExtends(c, e);
    assert Serves(c, e.s);
    forall k | Standing(d, k) ensures CandShape(d, k) {
      if Standing(c, k) {
        assert CandShape(c, k);
      }
    }
  }

  lemma AcksShaped(c: Core, e: Event)
    requires Shape(c) && Enabled(c, e)
    ensures forall a :: HasAcked(Apply(c, e), a) ==> AckShape(Apply(c, e), a)
  {
    var d := Apply(c, e);
    StepExtends(c, e);
    forall a | HasAcked(d, a) ensures AckShape(d, a) {
      if HasAcked(c, a) {
        assert AckShape(c, a);
      }
    }
  }

  lemma ShapeKept(c: Core, e: Event)
    requires Shape(c) && TermBounds(c) && Enabled(c, e)
    ensures Shape(Apply(c, e))
  {
    ReignsShaped(c, e);
    BallotsShaped(c, e);
    CandidatesShaped(c, e);
    AcksShaped(c, e);
  }

  // ----- groundedness and term bounds -----

  lemma GroundedPrefix(c: Core, log: Log, len: nat)
    requires Grounded(c, log) && len <= |log|
    ensures Grounded(c, log[..len])
  {
    forall k: nat | At(log[..len], k) ensures GroundedAt(c, log[..len], k) {
      assert At(log, k) && GroundedAt(c, log, k);
      assert log[..len][..k + 1] == log[..k + 1];
    }
  }

  lemma PeerGrounded(c: Core, e: Event, s: nat)
    requires Shape(c) && AllGrounded(c) && Enabled(c, e) && s < |c.peers|
    ensures Grounded(Apply(c, e), Apply(c, e).peers[s].log)
  {
    var d := Apply(c, e);
    StepExtends(c, e);
    assert Serves(c, s);
    GroundedExtends(c, d, c.peers[s].log);
    if s == e.s {
      match e {
        case Propose(_, x) => ProposalGrounded(c, e);
        case Accept(_, len, _) =>
          var r := c.reigns[c.peers[s].term].log;
          assert Reigning(c, c.peers[s].term);
          GroundedPrefix(c, r, len);
          GroundedExtends(c, d, r[..len]);
        case _ =>
      }
    }
  }

  lemma ProposalGrounded(c: Core, e: Event)
    requires Shape(c) && AllGrounded(c) && e.Propose? && Enabled(c, e)
    ensures Grounded(Apply(c, e), Apply(c, e).peers[e.s].log)
  {
    var d := Apply(c, e);
    var before := c.peers[e.s].log;
    StepExtends(c, e);
    assert Serves(c, e.s);
    GroundedExtends(c, d, before);
    LongerGrounded(d, before, d.peers[e.s].log);
  }

  lemma LongerGrounded(d: Core, before: Log, l: Log)
    requires Grounded(d, before) && |l| == |before| + 1 && before <= l
    requires l[|before|].term in d.reigns && l <= d.reigns[l[|before|].term].log
    ensures Grounded(d, l)
  {
    forall k: nat | At(l, k) ensures GroundedAt(d, l, k) {
      if k < |before| {
        assert At(before, k) && GroundedAt(d, before, k);
        assert l[..k + 1] == before[..k + 1];
      } else {
        assert l[..k + 1] == l;
      }
    }
  }

  lemma GroundedKept(c: Core, e: Event)
    requires Shape(c) && AllGrounded(c) && Enabled(c, e)
    ensures AllGrounded(Apply(c, e))
  {
    var d := Apply(c, e);
    StepExtends(c, e);
    PeerGrounded(c, e, e.s);
    forall s: nat | Serves(d, s) ensures Grounded(d, d.peers[s].log) {
      PeerGrounded(c, e, s);
    }
    forall t: nat | Reigning(d, t) ensures Grounded(d, d.reigns[t].log) {
      if Reigning(c, t) { GroundedExtends(c, d, c.reigns[t].log); }
    }
    forall k | Standing(d, k) ensures Grounded(d, d.cand[k]) {
      if Standing(c, k) { GroundedExtends(c, d, c.cand[k]); }
    }
    forall k | HasVoted(d, k) ensures Grounded(d, d.ballots[k].log) {
      if HasVoted(c, k) { GroundedExtends(c, d, c.ballots[k].log); }
    }
  }

  lemma TermBoundsKept(c: Core, e: Event)
    requires Shape(c) && TermBounds(c) && Enabled(c, e)
    ensures TermBounds(Apply(c, e))
  {
    var d := Apply(c, e);
    assert Serves(c, e.s);
    forall s: nat | Serves(d, s) ensures TermsUpTo(d.peers[s].log, d.peers[s].term) {
      assert Serves(c, s);
      assert e.Accept? ==> Reigning(c, c.peers[e.s].term);
    }
    forall t: nat | Reigning(d, t) ensures TermsUpTo(d.reigns[t].log, t) {
      assert Reigning(c, t) ==> TermsUpTo(c.reigns[t].log, t);
    }
  }

  lemma TipsKept(c: Core, e: Event)
    requires Shape(c) && TermBounds(c) && Tips(c) && Enabled(c, e)
    ensures Tips(Apply(c, e))
  {
    var d := Apply(c, e);
    forall t: nat | Reigning(d, t)
      ensures LastTerm(d.reigns[t].log) == t ==> Ack(t, d.reigns[t].leader, |d.reigns[t].log|) in d.acks
    {
      if !Reigning(c, t) {
        assert Standing(c, Seat(t, e.s)) && CandShape(c, Seat(t, e.s));
      }
    }
  }

  // ----- promises -----

  /** A leader adds entries of its own term only, so an older prefix it has now it always had. */
  lemma AlwaysHad(p: Log, r: Log, r': Log, t: nat, u: nat)
    requires TermsUpTo(p, t) && t < u && GrowsBy(r, r', u) && p <= r'
    ensures p <= r
  {
    assert p == [] || p[|p| - 1] == r'[|p| - 1];
    PrefixesCompare(p, r, r');
  }

  lemma OverruledKept(c: Core, d: Core, t: nat, j: nat, bound: nat, bound': nat)
    requires TermBounds(c) && Extends(c, d) && Reigning(c, t) && j <= |c.reigns[t].log|
    requires Overruled(c, t, j, bound) && bound <= bound'
    ensures Reigning(d, t) && j <= |d.reigns[t].log| && Overruled(d, t, j, bound')
  {
    var u: nat :| Reigning(c, u) && t < u <= bound && !(c.reigns[t].log[..j] <= c.reigns[u].log);
    var p := c.reigns[t].log[..j];
    assert d.reigns[t].log[..j] == p;
    assert Reigning(d, u);
    if p <= d.reigns[u].log {
      AlwaysHad(p, c.reigns[u].log, d.reigns[u].log, t, u);
    }
  }

  lemma KeptKept(c: Core, d: Core, t: nat, j: nat, log: Log, log': Log, bound: nat, bound': nat)
    requires TermBounds(c) && Extends(c, d) && Reigning(c, t) && j <= |c.reigns[t].log|
    requires Kept(c, t, j, log, bound) && bound <= bound'
    requires c.reigns[t].log[..j] <= log ==> Kept(c, t, j, log', bound')
    ensures Reigning(d, t) && j <= |d.reigns[t].log| && Kept(d, t, j, log', bound')
  {
    assert d.reigns[t].log[..j] == c.reigns[t].log[..j];
    if Overruled(c, t, j, bound') { OverruledKept(c, d, t, j, bound', bound'); }
    if Overruled(c, t, j, bound) { OverruledKept(c, d, t, j, bound, bound'); }
  }

  lemma StillHoldsKept(c: Core, d: Core, a: Ack, log: Log, bound: nat)
    requires TermBounds(c) && Extends(c, d) && AckShape(c, a) && StillHolds(c, a, log, bound)
    ensures AckShape(d, a) && StillHolds(d, a, log, bound)
  {
    assert Reigning(c, a.term);
    forall j: nat | j <= a.len ensures Kept(d, a.term, j, log, bound) {
      assert Kept(c, a.term, j, log, bound);
      KeptKept(c, d, a.term, j, log, log, bound, bound);
    }
  }

  /** A server's own log changes only so that an acknowledged prefix survives or is overruled. */
  lemma LogChange(c: Core, e: Event, t: nat, j: nat)
    requires Shape(c) && Enabled(c, e) && Reigning(c, t) && j <= |c.reigns[t].log| && t <= c.peers[e.s].term
    requires c.reigns[t].log[..j] <= c.peers[e.s].log
    ensures Kept(c, t, j, Apply(c, e).peers[e.s].log, Apply(c, e).peers[e.s].term)
  {
    var d := Apply(c, e);
    var q := c.peers[e.s];
    var p := c.reigns[t].log[..j];
    match e {
      case Accept(s, len, _) =>
        assert Reigning(c, q.term);
        if p <= c.reigns[q.term].log {
          AdoptKeeps(p, q.log, c.reigns[q.term].log, len);
        } else {
          assert Overruled(c, t, j, q.term);
        }
      case Propose(_, _) => PrefixTransitive(p, q.log, d.peers[e.s].log);
      case _ =>
    }
  }

  lemma OldAckHeld(c: Core, e: Event, a: Ack)
    requires Inv(c) && Enabled(c, e) && HasAcked(c, a)
    ensures var d := Apply(c, e); AckShape(d, a) && StillHolds(d, a, d.peers[a.server].log, d.peers[a.server].term)
  {
    var d := Apply(c, e);
    var log, log' := c.peers[a.server].log, d.peers[a.server].log;
    var bound, bound' := c.peers[a.server].term, d.peers[a.server].term;
    StepExtends(c, e);
    assert AckShape(c, a) && StillHolds(c, a, log, bound);
    forall j: nat | j <= a.len ensures Kept(d, a.term, j, log', bound') {
      AckKept(c, e, a, j);
    }
  }

  lemma AckKept(c: Core, e: Event, a: Ack, j: nat)
    requires Shape(c) && TermBounds(c) && Enabled(c, e) && Extends(c, Apply(c, e)) && AckShape(c, a) && j <= a.len
    requires Kept(c, a.term, j, c.peers[a.server].log, c.peers[a.server].term)
    ensures
      var d := Apply(c, e);
      && Reigning(d, a.term) && j <= |d.reigns[a.term].log|
      && Kept(d, a.term, j, d.peers[a.server].log, d.peers[a.server].term)
  {
    var d := Apply(c, e);
    assert Reigning(c, a.term);
    if a.server == e.s && c.reigns[a.term].log[..j] <= c.peers[a.server].log { LogChange(c, e, a.term, j); }
    KeptKept(c, d, a.term, j, c.peers[a.server].log, d.peers[a.server].log, c.peers[a.server].term, d.peers[a.server].term);
  }

  lemma NewAckHeld(c: Core, e: Event, a: Ack)
    requires Inv(c) && Enabled(c, e) && HasAcked(Apply(c, e), a) && !HasAcked(c, a)
    ensures var d := Apply(c, e); AckShape(d, a) && StillHolds(d, a, d.peers[a.server].log, d.peers[a.server].term)
  {
    var d := Apply(c, e);
    var log := d.peers[a.server].log;
    assert d.reigns[a.term].log[..a.len] <= log;
    forall j: nat | j <= a.len ensures Kept(d, a.term, j, log, d.peers[a.server].term) {
      PrefixTransitive(d.reigns[a.term].log[..j], d.reigns[a.term].log[..a.len], log);
    }
  }

  lemma HeldKept(c: Core, e: Event)
    requires Inv(c) && Enabled(c, e) && Shape(Apply(c, e))
    ensures Held(Apply(c, e))
  {
    var d := Apply(c, e);
    forall a | HasAcked(d, a) ensures StillHolds(d, a, d.peers[a.server].log, d.peers[a.server].term) {
      if HasAcked(c, a) {
        OldAckHeld(c, e, a);
      } else {
        NewAckHeld(c, e, a);
      }
    }
  }

  lemma OldBallotSworn(c: Core, d: Core, a: Ack, k: Seat)
    requires Sound(c) && Extends(c, d) && HasAcked(c, a) && HasVoted(c, k)
    requires k.server == a.server && a.term < k.term && Live(d, k)
    ensures AckShape(d, a) && StillHolds(d, a, d.ballots[k].log, k.term - 1)
  {
    assert Live(c, k);
    StillHoldsKept(c, d, a, c.ballots[k].log, k.term - 1);
  }

  /** A ballot cast now records the voter's present log; if it is live, its term has no leader yet. */
  lemma NewBallotIsPresent(c: Core, e: Event, k: Seat)
    requires Shape(c) && Enabled(c, e) && HasVoted(Apply(c, e), k) && !HasVoted(c, k) && Live(Apply(c, e), k)
    ensures
      var d := Apply(c, e);
      && 1 <= k.term && k.server < |d.peers| && !Reigning(d, k.term)
      && d.peers[k.server].log == d.ballots[k].log && d.peers[k.server].term == k.term
  {
    assert !Reigning(c, k.term);
    if e.Vote? { assert Standing(c, Seat(k.term, e.candidate)); }
  }

  lemma KeptBelow(c: Core, a: Ack, log: Log, t: nat)
    requires AckShape(c, a) && StillHolds(c, a, log, t) && 1 <= t && !Reigning(c, t)
    ensures StillHolds(c, a, log, t - 1)
  {
    var bound := t - 1;
    forall j: nat | j <= a.len ensures Kept(c, a.term, j, log, bound) {
      assert Kept(c, a.term, j, log, t);
    }
  }

  lemma NewBallotSworn(c: Core, e: Event, a: Ack, k: Seat)
    requires Shape(c) && Enabled(c, e) && HasVoted(Apply(c, e), k) && !HasVoted(c, k)
    requires k.server == a.server && a.term < k.term && Live(Apply(c, e), k)
    requires var d := Apply(c, e); AckShape(d, a) && StillHolds(d, a, d.peers[a.server].log, d.peers[a.server].term)
    ensures var d := Apply(c, e); AckShape(d, a) && StillHolds(d, a, d.ballots[k].log, k.term - 1)
  {
    NewBallotIsPresent(c, e, k);
    KeptBelow(Apply(c, e), a, Apply(c, e).ballots[k].log, k.term);
  }

  /** A server acknowledges only in the latest term it has voted in. */
  lemma NewAckIsLatest(c: Core, e: Event, a: Ack, k: Seat)
    requires Shape(c) && Enabled(c, e) && HasAcked(Apply(c, e), a) && HasVoted(Apply(c, e), k)
    requires k.server == a.server && a.term < k.term
    ensures HasAcked(c, a)
  {
    assert HasVoted(c, k) ==> BallotShape(c, k);
  }

  lemma SwornKept(c: Core, e: Event)
    requires Inv(c) && Enabled(c, e) && Shape(Apply(c, e))
    ensures Sworn(Apply(c, e))
  {
    var d := Apply(c, e);
    StepExtends(c, e);
    forall a, k | HasAcked(d, a) && HasVoted(d, k)
      ensures k.server == a.server && a.term < k.term && Live(d, k) ==> StillHolds(d, a, d.ballots[k].log, k.term - 1)
    {
      if k.server == a.server && a.term < k.term && Live(d, k) {
        assert HasAcked(c, a) by { NewAckIsLatest(c, e, a, k); }
        if HasVoted(c, k) {
          OldBallotSworn(c, d, a, k);
        } else {
          OldAckHeld(c, e, a);
          NewBallotSworn(c, e, a, k);
        }
      }
    }
  }

  // ----- commits -----

  /** Commits of a server whose log keeps its committed part and whose commit index does not rise. */
  lemma CommitCarried(c: Core, d: Core, s: nat)
    requires Extends(c, d) && s < |c.peers| && CommitSafe(c, s)
    requires d.peers[s].commit <= c.peers[s].commit && c.peers[s].log <= d.peers[s].log
    ensures CommitSafe(d, s)
  {
    var p, p' := c.peers[s], d.peers[s];
    CommittedPrefixExtends(c, d, p.term, p'.term, p.log[..p.commit]);
    ShorterCommitted(d, p'.term, p.log[..p.commit], p'.commit);
    assert p'.log[..p'.commit] == p.log[..p.commit][..p'.commit];
  }

  lemma CommitKept(c: Core, e: Event, s: nat)
    requires Inv(c) && Enabled(c, e) && s < |c.peers|
    ensures CommitSafe(Apply(c, e), s)
  {
    StepExtends(c, e);
    assert Serves(c, s);
    if s == e.s && e.Accept? {
      AcceptCommits(c, e);
    } else if s == e.s && e.Advance? {
      AdvanceCommits(c, e);
    } else {
      CommitCarried(c, Apply(c, e), s);
    }
  }

  lemma ShorterCommitted(c: Core, bound: nat, p: Log, k: nat)
    requires CommittedPrefix(c, bound, p) && k <= |p|
    ensures CommittedPrefix(c, bound, p[..k])
  {
    if k != 0 {
      var t: nat, m: nat :| t <= bound && Committed(c, t, m) && |p| <= m && p <= c.reigns[t].log;
      PrefixTransitive(p[..k], p, c.reigns[t].log);
    }
  }

  /** Accepting keeps what was committed, because every later leader has it. */
  lemma AcceptKeepsCommitted(c: Core, s: nat, len: nat)
    requires Inv(c) && s < |c.peers| && c.peers[s].term in c.reigns && len <= |c.reigns[c.peers[s].term].log|
    ensures
      var p := c.peers[s];
      p.commit <= |p.log| && p.log[..p.commit] <= Adopt(p.log, c.reigns[p.term].log, len)
  {
    var p := c.peers[s];
    assert Serves(c, s) && CommitSafe(c, s);
    CommittedInReign(c, p.term, p.log[..p.commit], p.term);
    AdoptKeeps(p.log[..p.commit], p.log, c.reigns[p.term].log, len);
  }

  lemma AdoptHolds(log: Log, r: Log, len: nat, k: nat)
    requires k <= len <= |r|
    ensures k <= |Adopt(log, r, len)| && Adopt(log, r, len)[..k] == r[..k]
  {
    assert Adopt(log, r, len)[..len] == r[..len];
    assert r[..len][..k] == r[..k];
  }

  /** The commit index stays, and the log keeps what it covers. */
  lemma SameCommit(c: Core, d: Core, s: nat, l': Log)
    requires Extends(c, d) && s < |c.peers| && CommitSafe(c, s)
    requires d.peers[s] == c.peers[s].(log := l') && c.peers[s].log[..c.peers[s].commit] <= l'
    ensures CommitSafe(d, s)
  {
    var p := c.peers[s];
    CommittedPrefixExtends(c, d, p.term, p.term, p.log[..p.commit]);
    assert l'[..p.commit] == p.log[..p.commit];
  }

  lemma NewCommit(c: Core, d: Core, s: nat, l': Log, k: nat)
    requires Extends(c, d) && s < |c.peers| && d.peers[s] == Peer(c.peers[s].term, l', k)
    requires k <= |l'| && CommittedPrefix(c, c.peers[s].term, l'[..k])
    ensures CommitSafe(d, s)
  {
    CommittedPrefixExtends(c, d, c.peers[s].term, c.peers[s].term, l'[..k]);
  }

  lemma AcceptCommits(c: Core, e: Event)
    requires Inv(c) && Enabled(c, e) && e.Accept?
    ensures CommitSafe(Apply(c, e), e.s)
  {
    StepExtends(c, e);
    assert Serves(c, e.s) && CommitSafe(c, e.s);
    AcceptKeepsCommitted(c, e.s, e.len);
    AcceptSafe(c, e);
  }

  lemma AcceptSafe(c: Core, e: Event)
    requires Enabled(c, e) && e.Accept? && Extends(c, Apply(c, e)) && CommitSafe(c, e.s)
    requires
      var p := c.peers[e.s];
      p.log[..p.commit] <= Adopt(p.log, c.reigns[p.term].log, e.len)
    ensures CommitSafe(Apply(c, e), e.s)
  {
    var p := c.peers[e.s];
    var r := c.reigns[p.term].log;
    var l' := Adopt(p.log, r, e.len);
    if e.leaderCommit <= p.commit {
      SameCommit(c, Apply(c, e), e.s, l');
    } else {
      AdoptHolds(p.log, r, e.len, e.leaderCommit);
      NewCommit(c, Apply(c, e), e.s, l', e.leaderCommit);
    }
  }

  lemma AdvanceCommits(c: Core, e: Event)
    requires Inv(c) && Enabled(c, e) && e.Advance?
    ensures CommitSafe(Apply(c, e), e.s)
  {
    StepExtends(c, e);
    assert Serves(c, e.s) && CommitSafe(c, e.s);
    AdvanceSafe(c, e);
  }

  lemma AdvanceSafe(c: Core, e: Event)
    requires Enabled(c, e) && e.Advance? && Extends(c, Apply(c, e)) && CommitSafe(c, e.s)
    ensures CommitSafe(Apply(c, e), e.s)
  {
    var p := c.peers[e.s];
    if e.index <= p.commit {
      SameCommit(c, Apply(c, e), e.s, p.log);
    } else {
      assert CommittedPrefix(c, p.term, p.log[..e.index]);
      NewCommit(c, Apply(c, e), e.s, p.log, e.index);
    }
  }

  lemma CommitsKept(c: Core, e: Event)
    requires Inv(c) && Enabled(c, e)
    ensures Commits(Apply(c, e))
  {
    forall s: nat | Serves(Apply(c, e), s) ensures CommitSafe(Apply(c, e), s) {
      CommitKept(c, e, s);
    }
  }

  // ----- all together -----

  lemma StartInv(n: nat)
    ensures Inv(Start(n))
  {
  }

  /** Every step keeps the invariant and only adds to the history. */
  lemma StepInv(c: Core, e: Event)
    requires Inv(c) && Enabled(c, e)
    ensures Inv(Apply(c, e)) && Extends(c, Apply(c, e))
  {
    StepExtends(c, e);
    ShapeKept(c, e);
    GroundedKept(c, e);
    TermBoundsKept(c, e);
    TipsKept(c, e);
    HeldKept(c, e);
    SwornKept(c, e);
    CommitsKept(c, e);
  }

  /** At most one leader per term: two winners would share a voter. */
  lemma OneLeader(c: Core, s: nat, q: set<nat>, t: nat)
    requires Shape(c) && Reigning(c, t) && Quorum(|c.peers|, q)
    requires forall v :: v in q ==> Seat(t, v) in c.ballots && c.ballots[Seat(t, v)].candidate == s
    ensures c.reigns[t].leader == s
  {
    assert ReignShape(c, t);
    var v := QuorumsMeet(|c.peers|, q, c.reigns[t].voters);
  }
}
