/**
 * Raft reduced to what its safety argument needs: no messages, only what each
 * server holds and what has ever been promised. `reigns` keeps the log of the
 * leader of each term, `ballots` every vote with the voter's log at that moment,
 * `acks` every acknowledged prefix. RaftSimulation and its sequels show that RaftCluster,
 * with its network, crashes and snapshots, only ever takes these steps.
 */
module RaftCore {
  import opened RaftTypes

  datatype Peer = Peer(term: nat, log: Log, commit: nat)
  datatype Seat = Seat(term: nat, server: nat)
  datatype Ballot = Ballot(candidate: nat, log: Log)
  datatype Reign = Reign(leader: nat, voters: set<nat>, log: Log)
  datatype Ack = Ack(term: nat, server: nat, len: nat)

  datatype Core = Core(
    peers: seq<Peer>,
    cand: map<Seat, Log>,
    ballots: map<Seat, Ballot>,
    reigns: map<nat, Reign>,
    acks: set<Ack>)

  datatype Event =
    | Bump(s: nat, t: nat)
    | Stand(s: nat)
    | Vote(s: nat, candidate: nat)
    | Elect(s: nat, voters: set<nat>)
    | Propose(s: nat, command: Command)
    | Accept(s: nat, len: nat, leaderCommit: nat)
    | Advance(s: nat, index: nat)
    | Forget(s: nat, commit: nat)

  function Start(n: nat): Core {
    Core(seq(n, i => Peer(0, [], 0)), map[], map[], map[], {})
  }

  // ----- what is acknowledged and what is committed -----

  ghost predicate Acked(c: Core, t: nat, s: nat, m: nat) {
    exists a :: a in c.acks && a.term == t && a.server == s && m <= a.len
  }

  ghost predicate AckQuorum(c: Core, t: nat, m: nat, q: set<nat>) {
    Quorum(|c.peers|, q) && forall v :: v in q ==> Acked(c, t, v, m)
  }

  /** The commit rule: a majority holds index `m` of term `t`'s log, and that entry is of term `t`. */
  ghost predicate Committed(c: Core, t: nat, m: nat) {
    && t in c.reigns
    && 1 <= m <= |c.reigns[t].log|
    && c.reigns[t].log[m - 1].term == t
    && exists q :: AckQuorum(c, t, m, q)
  }

  /** `p` is part of something committed in a term no later than `bound`. */
  ghost predicate CommittedPrefix(c: Core, bound: nat, p: Log) {
    p == [] || exists t: nat, m: nat :: t <= bound && Committed(c, t, m) && |p| <= m && p <= c.reigns[t].log
  }

  // ----- steps -----

  ghost predicate Enabled(c: Core, e: Event) {
    e.s < |c.peers| &&
    var p := c.peers[e.s];
    match e
    case Bump(_, t) => p.term < t
    case Stand(_) => true
    case Vote(s, d) =>
      && Seat(p.term, s) !in c.ballots
      && Seat(p.term, d) in c.cand
      && var l := c.cand[Seat(p.term, d)];
         UpToDate(|l|, LastTerm(l), |p.log|, LastTerm(p.log))
    case Elect(s, q) =>
      && p.term !in c.reigns
      && Seat(p.term, s) in c.cand
      && c.cand[Seat(p.term, s)] == p.log
      && Quorum(|c.peers|, q)
      && forall v :: v in q ==> Seat(p.term, v) in c.ballots && c.ballots[Seat(p.term, v)].candidate == s
    case Propose(s, _) => IsLeader(c, s)
    case Accept(s, len, lc) =>
      && p.term in c.reigns
      && lc <= len <= |c.reigns[p.term].log|
      && CommittedPrefix(c, p.term, c.reigns[p.term].log[..lc])
    case Advance(s, m) =>
      && IsLeader(c, s)
      && Committed(c, p.term, m)
    case Forget(_, k) => k <= p.commit
  }

  predicate IsLeader(c: Core, s: nat)
    requires s < |c.peers|
  {
    var p := c.peers[s];
    p.term in c.reigns && c.reigns[p.term].leader == s && c.reigns[p.term].log == p.log
  }

  /** What accepting the first `len` entries of the leader's log `r` leaves of `log`. */
  function Adopt(log: Log, r: Log, len: nat): Log
    requires len <= |r|
  {
    if r[..len] <= log then log else r[..len]
  }

  ghost function Apply(c: Core, e: Event): Core
    requires Enabled(c, e)
  {
    var p := c.peers[e.s];
    match e
    case Bump(s, t) => c.(peers := c.peers[s := p.(term := t)])
    case Stand(s) =>
      c.(peers := c.peers[s := p.(term := p.term + 1)],
      cand := c.cand[Seat(p.term + 1, s) := p.log],
      ballots := c.ballots[Seat(p.term + 1, s) := Ballot(s, p.log)])
    case Vote(s, d) => c.(ballots := c.ballots[Seat(p.term, s) := Ballot(d, p.log)])
    case Elect(s, q) => c.(reigns := c.reigns[p.term := Reign(s, q, p.log)])
    case Propose(s, x) =>
      var l := p.log + [Entry(p.term, x)];
      c.(peers := c.peers[s := p.(log := l)],
      reigns := c.reigns[p.term := c.reigns[p.term].(log := l)],
      acks := c.acks + {Ack(p.term, s, |l|)})
    case Accept(s, len, lc) =>
      c.(peers := c.peers[s := p.(log := Adopt(p.log, c.reigns[p.term].log, len), commit := Max(p.commit, lc))],
      acks := c.acks + {Ack(p.term, s, len)})
    case Advance(s, m) => c.(peers := c.peers[s := p.(commit := Max(p.commit, m))])
    case Forget(s, k) => c.(peers := c.peers[s := p.(commit := k)])
  }

  /** `es` leads from `c` to `d`, each event enabled where it happens. */
  ghost predicate Path(c: Core, es: seq<Event>, d: Core)
    decreases |es|
  {
    if es == [] then c == d else Enabled(c, es[0]) && Path(Apply(c, es[0]), es[1..], d)
  }

  lemma {:induction false} PathConcat(a: Core, es: seq<Event>, b: Core, fs: seq<Event>, c: Core)
    requires Path(a, es, b) && Path(b, fs, c)
    ensures Path(a, es + fs, c)
    decreases |es|
  {
    if es == [] {
      assert es + fs == fs;
    } else {
      PathConcat(Apply(a, es[0]), es[1..], b, fs, c);
      assert (es + fs)[1..] == es[1..] + fs;
    }
  }

  // ----- the invariant -----
  // The invariant quantifies through these small predicates, so that a proof names the
  // server, term, ballot or position it is about.

  predicate Serves(c: Core, s: nat) { s < |c.peers| }
  predicate Reigning(c: Core, t: nat) { t in c.reigns }
  predicate Standing(c: Core, k: Seat) { k in c.cand }
  predicate HasVoted(c: Core, k: Seat) { k in c.ballots }
  predicate HasAcked(c: Core, a: Ack) { a in c.acks }
  predicate At(log: Log, k: nat) { k < |log| }

  /** Every entry of `log` was created by its term's leader, after exactly the entries before it. */
  ghost predicate Grounded(c: Core, log: Log) {
    forall k: nat :: At(log, k) ==> GroundedAt(c, log, k)
  }

  ghost predicate GroundedAt(c: Core, log: Log, k: nat)
    requires At(log, k)
  {
    Reigning(c, log[k].term) && log[..k + 1] <= c.reigns[log[k].term].log
  }

  predicate TermsUpTo(log: Log, t: nat) {
    forall k :: 0 <= k < |log| ==> log[k].term <= t
  }

  ghost predicate ReignShape(c: Core, t: nat)
    requires t in c.reigns
  {
    var r := c.reigns[t];
    && 1 <= t
    && r.leader < |c.peers|
    && t <= c.peers[r.leader].term
    && Quorum(|c.peers|, r.voters)
    && (forall v :: v in r.voters ==> Seat(t, v) in c.ballots && c.ballots[Seat(t, v)].candidate == r.leader)
    && Seat(t, r.leader) in c.cand
    && c.cand[Seat(t, r.leader)] <= r.log
  }

  ghost predicate BallotShape(c: Core, k: Seat)
    requires k in c.ballots
  {
    var b := c.ballots[k];
    && k.server < |c.peers|
    && k.term <= c.peers[k.server].term
    && Seat(k.term, b.candidate) in c.cand
    && var l := c.cand[Seat(k.term, b.candidate)];
       UpToDate(|l|, LastTerm(l), |b.log|, LastTerm(b.log))
  }

  ghost predicate CandShape(c: Core, k: Seat)
    requires k in c.cand
  {
    && 1 <= k.term
    && k.server < |c.peers|
    && k.term <= c.peers[k.server].term
    && TermsUpTo(c.cand[k], k.term - 1)
  }

  ghost predicate AckShape(c: Core, a: Ack) {
    && a.server < |c.peers|
    && a.term <= c.peers[a.server].term
    && a.term in c.reigns
    && a.len <= |c.reigns[a.term].log|
  }

  ghost predicate Shape(c: Core) {
    && (forall t: nat :: Reigning(c, t) ==> ReignShape(c, t))
    && (forall k :: HasVoted(c, k) ==> BallotShape(c, k))
    && (forall k :: Standing(c, k) ==> CandShape(c, k))
    && (forall a :: HasAcked(c, a) ==> AckShape(c, a))
  }

  ghost predicate AllGrounded(c: Core) {
    && (forall s: nat :: Serves(c, s) ==> Grounded(c, c.peers[s].log))
    && (forall t: nat :: Reigning(c, t) ==> Grounded(c, c.reigns[t].log))
    && (forall k :: Standing(c, k) ==> Grounded(c, c.cand[k]))
    && (forall k :: HasVoted(c, k) ==> Grounded(c, c.ballots[k].log))
  }

  ghost predicate TermBounds(c: Core) {
    && (forall s: nat :: Serves(c, s) ==> TermsUpTo(c.peers[s].log, c.peers[s].term))
    && (forall t: nat :: Reigning(c, t) ==> TermsUpTo(c.reigns[t].log, t))
  }

  /** A leader has acknowledged its own entries. */
  ghost predicate Tips(c: Core) {
    forall t: nat :: Reigning(c, t) ==>
      LastTerm(c.reigns[t].log) == t ==> Ack(t, c.reigns[t].leader, |c.reigns[t].log|) in c.acks
  }

  /** Some leader in the terms `t` < u <= `bound` does not have the first `j` entries of term `t`'s log. */
  ghost predicate Overruled(c: Core, t: nat, j: nat, bound: nat)
    requires t in c.reigns && j <= |c.reigns[t].log|
  {
    exists u: nat :: Reigning(c, u) && t < u <= bound && !(c.reigns[t].log[..j] <= c.reigns[u].log)
  }

  ghost predicate Kept(c: Core, t: nat, j: nat, log: Log, bound: nat)
    requires t in c.reigns && j <= |c.reigns[t].log|
  {
    c.reigns[t].log[..j] <= log || Overruled(c, t, j, bound)
  }

  ghost predicate StillHolds(c: Core, a: Ack, log: Log, bound: nat)
    requires AckShape(c, a)
  {
    forall j: nat :: j <= a.len ==> Kept(c, a.term, j, log, bound)
  }

  /** What a server acknowledged it still holds, unless a later leader lacked it. */
  ghost predicate Held(c: Core)
    requires Shape(c)
  {
    forall a :: HasAcked(c, a) ==> StillHolds(c, a, c.peers[a.server].log, c.peers[a.server].term)
  }

  /** A ballot that elected, or may still elect, its candidate. */
  predicate Live(c: Core, k: Seat) {
    k.term in c.reigns ==> k.server in c.reigns[k.term].voters
  }

  /** ... and it still held it when it cast a live ballot in a later term. */
  ghost predicate Sworn(c: Core)
    requires Shape(c)
  {
    forall a, k | HasAcked(c, a) && HasVoted(c, k) ::
      k.server == a.server && a.term < k.term && Live(c, k) ==> StillHolds(c, a, c.ballots[k].log, k.term - 1)
  }

  ghost predicate CommitSafe(c: Core, s: nat)
    requires s < |c.peers|
  {
    var p := c.peers[s];
    p.commit <= |p.log| && CommittedPrefix(c, p.term, p.log[..p.commit])
  }

  ghost predicate Commits(c: Core) {
    forall s: nat :: Serves(c, s) ==> CommitSafe(c, s)
  }

  ghost predicate Inv(c: Core) {
    && Shape(c)
    && AllGrounded(c)
    && TermBounds(c)
    && Tips(c)
    && Held(c)
    && Sworn(c)
    && Commits(c)
  }

  // ----- history only grows -----

  ghost predicate Extends(c: Core, d: Core) {
    && |c.peers| == |d.peers|
    && (forall s :: 0 <= s < |c.peers| ==> c.peers[s].term <= d.peers[s].term)
    && (forall k :: k in c.cand ==> k in d.cand && d.cand[k] == c.cand[k])
    && (forall k :: k in c.ballots ==> k in d.ballots && d.ballots[k] == c.ballots[k])
    && (forall t :: t in c.reigns ==>
         t in d.reigns && d.reigns[t].leader == c.reigns[t].leader
         && d.reigns[t].voters == c.reigns[t].voters && GrowsBy(c.reigns[t].log, d.reigns[t].log, t))
    && c.acks <= d.acks
  }

  /** `r'` is `r` followed by entries of term `t` only. */
  predicate GrowsBy(r: Log, r': Log, t: nat) {
    r <= r' && forall i :: |r| <= i < |r'| ==> r'[i].term == t
  }

  lemma StepExtends(c: Core, e: Event)
    requires Shape(c) && Enabled(c, e)
    ensures Extends(c, Apply(c, e))
  {
    var d := Apply(c, e);
    match e {
      case Stand(s) =>
        var k := Seat(c.peers[s].term + 1, s);
        assert Standing(c, k) ==> CandShape(c, k);
        assert HasVoted(c, k) ==> BallotShape(c, k);
      case _ =>
    }
  }

  lemma ExtendsTransitive(a: Core, b: Core, c: Core)
    requires Extends(a, b) && Extends(b, c)
    ensures Extends(a, c)
  {
    forall t | t in a.reigns
      ensures t in c.reigns && GrowsBy(a.reigns[t].log, c.reigns[t].log, t)
    {
      PrefixTransitive(a.reigns[t].log, b.reigns[t].log, c.reigns[t].log);
    }
  }

  lemma PrefixTransitive(p: Log, q: Log, r: Log)
    requires p <= q && q <= r
    ensures p <= r
  {
    assert p == q[..|p|] == r[..|p|];
  }

  /** Two prefixes of one log are comparable. */
  lemma PrefixesCompare(p: Log, q: Log, r: Log)
    requires p <= r && q <= r
    ensures |p| <= |q| ==> p <= q
    ensures |q| <= |p| ==> q <= p
  {
    assert p == r[..|p|] && q == r[..|q|];
  }

  lemma GroundedExtends(c: Core, d: Core, log: Log)
    requires Extends(c, d) && Grounded(c, log)
    ensures Grounded(d, log)
  {
    forall k: nat | At(log, k) ensures GroundedAt(d, log, k) {
      assert GroundedAt(c, log, k);
      PrefixTransitive(log[..k + 1], c.reigns[log[k].term].log, d.reigns[log[k].term].log);
    }
  }

  lemma CommittedExtends(c: Core, d: Core, t: nat, m: nat)
    requires Extends(c, d) && Committed(c, t, m)
    ensures Committed(d, t, m)
  {
    var q :| AckQuorum(c, t, m, q);
    forall v | v in q ensures Acked(d, t, v, m) {
      assert Acked(c, t, v, m);
    }
    assert AckQuorum(d, t, m, q);
    assert d.reigns[t].log[m - 1] == c.reigns[t].log[m - 1];
  }

  lemma CommittedPrefixExtends(c: Core, d: Core, bound: nat, bound': nat, p: Log)
    requires Extends(c, d) && CommittedPrefix(c, bound, p) && bound <= bound'
    ensures CommittedPrefix(d, bound', p)
  {
    if p != [] {
      var t: nat, m: nat :| t <= bound && Committed(c, t, m) && |p| <= m && p <= c.reigns[t].log;
      CommittedExtends(c, d, t, m);
      PrefixTransitive(p, c.reigns[t].log, d.reigns[t].log);
    }
  }

  // ----- consequences of being grounded -----

  lemma Monotone(c: Core, log: Log, i: nat, j: nat)
    requires TermBounds(c) && Grounded(c, log) && i <= j < |log|
    ensures log[i].term <= log[j].term
  {
    assert At(log, j) && GroundedAt(c, log, j);
    var r := c.reigns[log[j].term].log;
    assert log[..j + 1][i] == r[i];
  }

  /** Log Matching: equal terms at one index force equal logs up to it. */
  lemma Matching(c: Core, a: Log, b: Log, k: nat)
    requires Grounded(c, a) && Grounded(c, b)
    requires k < |a| && k < |b| && a[k].term == b[k].term
    ensures a[..k + 1] == b[..k + 1]
  {
    assert At(a, k) && At(b, k);
    var r := c.reigns[a[k].term].log;
    assert a[..k + 1] == r[..k + 1] == b[..k + 1];
  }

  /** What both the follower and the leader hold survives an acceptance. */
  lemma AdoptKeeps(p: Log, log: Log, r: Log, len: nat)
    requires len <= |r| && p <= log && p <= r
    ensures p <= Adopt(log, r, len)
  {
    PrefixesCompare(p, r[..len], r);
    if len <= |p| {
      PrefixTransitive(r[..len], p, log);
    }
  }

  // ----- leader completeness -----

  ghost predicate Sound(c: Core) {
    Shape(c) && AllGrounded(c) && TermBounds(c) && Sworn(c)
  }

  /** Committed means: some voter of every later reign acknowledged it. */
  lemma CommonVoter(c: Core, t: nat, m: nat, u: nat) returns (a: Ack)
    requires Shape(c) && Committed(c, t, m) && u in c.reigns
    ensures HasAcked(c, a) && a.term == t && m <= a.len && a.server in c.reigns[u].voters
  {
    var q :| AckQuorum(c, t, m, q);
    assert Reigning(c, u);
    var v := QuorumsMeet(|c.peers|, q, c.reigns[u].voters);
    assert Acked(c, t, v, m);
    a :| a in c.acks && a.term == t && a.server == v && m <= a.len;
  }

  /**
   * An entry committed in term `t` is in the log of the leader of every later term.
   */
  lemma {:induction false} LeaderCompleteness(c: Core, t: nat, m: nat, u: nat)
    requires Sound(c) && Committed(c, t, m) && u in c.reigns && t < u
    ensures c.reigns[t].log[..m] <= c.reigns[u].log
    decreases u, 1
  {
    var p := c.reigns[t].log[..m];
    var a := CommonVoter(c, t, m, u);
    var k := Seat(u, a.server);
    assert Reigning(c, t) && Reigning(c, u);
    assert HasVoted(c, k) && Live(c, k);
    var voted := c.ballots[k].log;
    assert StillHolds(c, a, voted, u - 1);
    assert Kept(c, t, m, voted, u - 1);
    if Overruled(c, t, m, u - 1) {
      var w: nat :| Reigning(c, w) && t < w <= u - 1 && !(p <= c.reigns[w].log);
      LeaderCompleteness(c, t, m, w);
    } else {
      var seat := Seat(u, c.reigns[u].leader);
      assert Standing(c, seat) && CandShape(c, seat) && BallotShape(c, k);
      CandidateHolds(c, t, m, c.cand[seat], voted, u);
      PrefixTransitive(p, c.cand[seat], c.reigns[u].log);
    }
  }

  /** A candidate at least as up to date as a voter holding committed entries holds them too. */
  lemma {:induction false} CandidateHolds(c: Core, t: nat, m: nat, l: Log, voted: Log, u: nat)
    requires Sound(c) && Committed(c, t, m) && 1 <= t < u
    requires Grounded(c, l) && Grounded(c, voted) && TermsUpTo(l, u - 1)
    requires c.reigns[t].log[..m] <= voted
    requires UpToDate(|l|, LastTerm(l), |voted|, LastTerm(voted))
    ensures c.reigns[t].log[..m] <= l
    decreases u, 0
  {
    var p := c.reigns[t].log[..m];
    assert voted[m - 1] == p[m - 1];
    Monotone(c, voted, m - 1, |voted| - 1);
    var w := LastTerm(l);
    assert At(l, |l| - 1) && GroundedAt(c, l, |l| - 1);
    assert l[..|l|] == l;
    if w == t {
      PrefixesCompare(p, l, c.reigns[t].log);
    } else {
      LeaderCompleteness(c, t, m, w);
      LaterTermIsLonger(c, t, m, l, w);
      PrefixesCompare(p, l, c.reigns[w].log);
    }
  }

  lemma LaterTermIsLonger(c: Core, t: nat, m: nat, l: Log, w: nat)
    requires TermBounds(c) && t in c.reigns && w in c.reigns && t < w && m <= |c.reigns[t].log|
    requires l != [] && l <= c.reigns[w].log && LastTerm(l) == w && c.reigns[t].log[..m] <= c.reigns[w].log
    ensures m <= |l|
  {
    assert Reigning(c, t) && TermsUpTo(c.reigns[t].log[..m], t);
  }

  /** The same for what a committed prefix means to any term not before it. */
  lemma CommittedInReign(c: Core, bound: nat, p: Log, u: nat)
    requires Sound(c) && CommittedPrefix(c, bound, p) && bound <= u && u in c.reigns
    ensures p <= c.reigns[u].log
  {
    if p != [] {
      var t: nat, m: nat :| t <= bound && Committed(c, t, m) && |p| <= m && p <= c.reigns[t].log;
      var whole := c.reigns[t].log[..m];
      PrefixesCompare(p, whole, c.reigns[t].log);
      if t < u { LeaderCompleteness(c, t, m, u); }
      PrefixTransitive(p, whole, c.reigns[u].log);
    }
  }

  lemma CommittedIn(c: Core, bound: nat, p: Log) returns (t: nat)
    requires CommittedPrefix(c, bound, p) && p != []
    ensures t in c.reigns && CommittedPrefix(c, t, p)
  {
    var m: nat;
    t, m :| t <= bound && Committed(c, t, m) && |p| <= m && p <= c.reigns[t].log;
  }

  /** Whatever two servers consider committed, one is a prefix of the other. */
  lemma CommittedAgree(c: Core, bp: nat, p: Log, bq: nat, q: Log)
    requires Sound(c) && CommittedPrefix(c, bp, p) && CommittedPrefix(c, bq, q)
    ensures p <= q || q <= p
  {
    if p != [] && q != [] {
      var t := CommittedIn(c, bp, p);
      var u := CommittedIn(c, bq, q);
      var w := Max(t, u);
      CommittedInReign(c, t, p, w);
      CommittedInReign(c, u, q, w);
      PrefixesCompare(p, q, c.reigns[w].log);
    }
  }
}
