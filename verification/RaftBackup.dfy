/**
 * Fast back-up: how quickly a leader finds where a follower's log agrees with its own,
 * or finds that it must send its snapshot. Either server may have compacted its log.
 */
module RaftBackup {
  import opened RaftTypes
  import opened RaftNode
  import opened RaftCore
  import opened RaftCluster
  import opened RaftCoupling
  import opened RaftSimulation
  import opened RaftSafety

  // ----- what the argument needs of the two logs -----

  /** Wherever both logs have entries of one term, they agree below the lower of the two. */
  ghost predicate SameOrigin(a: Node, b: Node)
    requires 1 <= |a.logs| && 1 <= |b.logs|
  {
    forall i: nat, j: nat {:trigger SameTermsUpTo(a, b, Min(i, j))} ::
      Holds(a, i) && Holds(b, j) && LogTerm(a, i) == LogTerm(b, j) ==> SameTermsUpTo(a, b, Min(i, j))
  }

  /** Terms never decrease, and only index 0 has term 0. */
  predicate Ordered(nd: Node) {
    && (forall i, j :: 0 <= i <= j < |nd.logs| ==> nd.logs[i].term <= nd.logs[j].term)
    && (forall i :: 0 <= i < |nd.logs| ==> (nd.logs[i].term == 0 <==> nd.snapLastIndex + i == 0))
  }

  /** The leader has what the follower's snapshot covers. */
  predicate Covers(l: Node, f: Node)
    requires 1 <= |l.logs| && 1 <= |f.logs|
  {
    l.snapLastIndex <= f.snapLastIndex ==>
      Holds(l, f.snapLastIndex) && LogTerm(l, f.snapLastIndex) == LogTerm(f, f.snapLastIndex)
  }

  ghost predicate Pair(l: Node, f: Node) {
    Valid(l) && Valid(f) && Ordered(l) && Ordered(f) && SameOrigin(l, f) && Covers(l, f)
  }

  // ----- one attempt -----

  ghost predicate Tries(l: Node, f: Node, p: nat, next: nat) {
    Pair(l, f) && p < l.n && l.snapLastIndex < next <= LastIndex(l) + 1
  }

  /** The hints in the follower's answer when the leader tries from `next`. */
  ghost function Answer(l: Node, f: Node, p: nat, next: nat): AppendEntriesReply
    requires Tries(l, f, p, next)
  {
    Conflict(f, AppendArgs(l.(nextIndex := l.nextIndex[p := next]), p))
  }

  predicate SameLogs(a: Node, b: Node) {
    b.logs == a.logs && b.snapLastIndex == a.snapLastIndex
  }

  /** The hints depend on the follower's log and on where the leader tries. */
  lemma SameConflict(f: Node, f': Node, a: AppendEntriesArgs, a': AppendEntriesArgs)
    requires Valid(f) && Valid(f') && SameLogs(f, f') && a'.prevLogIndex == a.prevLogIndex && a'.prevLogTerm == a.prevLogTerm
    ensures Conflict(f', a') == Conflict(f, a).(term := f'.currentTerm)
  {
  }

  /** A follower not in a later term answers so. */
  lemma AnswerIsReply(l: Node, f: Node, p: nat, next: nat)
    requires Tries(l, f, p, next) && f.currentTerm <= l.currentTerm
    ensures
      var a := AppendArgs(l.(nextIndex := l.nextIndex[p := next]), p);
      AppendEntries(f, a).1 == Answer(l, f, p, next).(term := l.currentTerm)
  {
    var a := AppendArgs(l.(nextIndex := l.nextIndex[p := next]), p);
    SameConflict(f, Persist(Follow(f, a.term)), a, a);
  }

  lemma BelowSnapshot(l: Node, f: Node, p: nat, next: nat)
    requires Tries(l, f, p, next) && next <= f.snapLastIndex
    ensures !Answer(l, f, p, next).success && BackUp(l, Answer(l, f, p, next)) == f.snapLastIndex + 1 <= LastIndex(l) + 1
    ensures l.snapLastIndex <= Answer(l, f, p, next).conflictIndex
  {
  }

  lemma AtSnapshot(l: Node, f: Node, p: nat)
    requires Tries(l, f, p, f.snapLastIndex + 1)
    ensures Answer(l, f, p, f.snapLastIndex + 1).success
  {
  }

  lemma Short(l: Node, f: Node, p: nat, next: nat)
    requires Tries(l, f, p, next) && LastIndex(f) + 1 < next
    ensures
      var r := Answer(l, f, p, next);
      !r.success && r.conflictTerm < 0 && BackUp(l, r) == r.conflictIndex == LastIndex(f) + 1
  {
  }

  /** The follower has another term there. */
  lemma Mismatch(l: Node, f: Node, p: nat, next: nat)
    requires Tries(l, f, p, next) && f.snapLastIndex < next <= LastIndex(f) + 1 && !Answer(l, f, p, next).success
    ensures
      var r, prev := Answer(l, f, p, next), next - 1;
      && f.snapLastIndex < prev && LogTerm(f, prev) == r.conflictTerm && 1 <= r.conflictTerm != LogTerm(l, prev)
      && r.conflictIndex == f.snapLastIndex + RunStart(f.logs, prev - f.snapLastIndex)
      && 1 <= r.conflictIndex <= prev
  {
    var k := next - 1 - f.snapLastIndex;
    var first := RunStart(f.logs, k);
    assert f.logs[first].term == f.logs[k].term;
  }

  /** A leader that has the follower's conflicting term has it below the conflict, where both agree. */
  lemma ConflictTermBelow(l: Node, f: Node, i: nat, prev: nat)
    requires Pair(l, f) && Holds(l, i) && Holds(l, prev) && Holds(f, prev)
    requires LogTerm(l, i) == LogTerm(f, prev) != LogTerm(l, prev)
    ensures i < prev && SameTermsUpTo(l, f, i)
  {
    assert SameTermsUpTo(l, f, Min(i, prev));
  }

  lemma Known(l: Node, f: Node, p: nat, next: nat)
    requires Tries(l, f, p, next) && f.snapLastIndex < next <= LastIndex(f) + 1 && !Answer(l, f, p, next).success
    requires 0 <= LastOfTerm(l.logs, |l.logs| - 1, Answer(l, f, p, next).conflictTerm)
    ensures
      var next' := BackUp(l, Answer(l, f, p, next));
      1 <= next' < next && l.snapLastIndex <= next' && SameTermsUpTo(l, f, next')
  {
    Mismatch(l, f, p, next);
    var r := Answer(l, f, p, next);
    var j := LastOfTerm(l.logs, |l.logs| - 1, r.conflictTerm);
    ConflictTermBelow(l, f, l.snapLastIndex + j, next - 1);
  }

  lemma Unknown(l: Node, f: Node, p: nat, next: nat)
    requires Tries(l, f, p, next) && f.snapLastIndex < next <= LastIndex(f) + 1 && !Answer(l, f, p, next).success
    requires LastOfTerm(l.logs, |l.logs| - 1, Answer(l, f, p, next).conflictTerm) < 0
    ensures
      var next' := BackUp(l, Answer(l, f, p, next));
      1 <= next' < next && next' == f.snapLastIndex + RunStart(f.logs, next - 1 - f.snapLastIndex)
  {
    Mismatch(l, f, p, next);
  }

  /** A rejection lowers nextIndex exactly when the index tried is not below the follower's snapshot. */
  lemma RejectionLowersNext(l: Node, f: Node, p: nat, next: nat)
    requires Tries(l, f, p, next) && !Answer(l, f, p, next).success
    ensures
      var next' := BackUp(l, Answer(l, f, p, next));
      1 <= next' <= LastIndex(l) + 1 && (next' < next <==> f.snapLastIndex <= next - 1)
  {
    if next <= f.snapLastIndex {
      BelowSnapshot(l, f, p, next);
    } else if LastIndex(f) + 1 < next {
      Short(l, f, p, next);
    } else if 0 <= LastOfTerm(l.logs, |l.logs| - 1, Answer(l, f, p, next).conflictTerm) {
      Known(l, f, p, next);
    } else {
      Unknown(l, f, p, next);
    }
  }

  /** If the leader has the conflicting term, it next sends its snapshot, or is below the follower's, or is accepted. */
  lemma KnownTermMatchesNext(l: Node, f: Node, p: nat, next: nat)
    requires Tries(l, f, p, next) && f.snapLastIndex < next <= LastIndex(f) + 1 && !Answer(l, f, p, next).success
    requires 0 <= LastOfTerm(l.logs, |l.logs| - 1, Answer(l, f, p, next).conflictTerm)
    ensures
      var next' := BackUp(l, Answer(l, f, p, next));
      next' <= l.snapLastIndex || next' <= f.snapLastIndex || (Tries(l, f, p, next') && Answer(l, f, p, next').success)
  {
    Known(l, f, p, next);
  }

  // ----- all attempts -----

  /** From below the follower's snapshot to its end, otherwise down. */
  function Rank(f: Node, next: nat): nat {
    if next == f.snapLastIndex + 1 then 0 else if next <= f.snapLastIndex then 1 else next
  }

  lemma RankFalls(l: Node, f: Node, p: nat, next: nat)
    requires Tries(l, f, p, next) && !Answer(l, f, p, next).success
    ensures Rank(f, BackUp(l, Answer(l, f, p, next))) < Rank(f, next)
  {
    if next == f.snapLastIndex + 1 {
      AtSnapshot(l, f, p);
    } else {
      RejectionLowersNext(l, f, p, next);
      if next <= f.snapLastIndex { BelowSnapshot(l, f, p, next); }
    }
  }

  /** How many times the follower says no before it accepts or the leader sends its snapshot. */
  ghost function Rejections(l: Node, f: Node, p: nat, next: nat): nat
    requires Pair(l, f) && p < l.n && 1 <= next <= LastIndex(l) + 1
    decreases Rank(f, next)
  {
    if next <= l.snapLastIndex || Answer(l, f, p, next).success then 0
    else if Answer(l, f, p, next).conflictIndex < l.snapLastIndex then 1
    else
      RejectionLowersNext(l, f, p, next);
      RankFalls(l, f, p, next);
      1 + Rejections(l, f, p, BackUp(l, Answer(l, f, p, next)))
  }

  function Terms(logs: seq<Entry>, k: nat): set<nat>
    requires k < |logs|
  {
    set i | 1 <= i <= k :: logs[i].term
  }

  lemma FewerTerms(logs: seq<Entry>, i: nat, k: nat)
    requires i <= k < |logs|
    ensures |Terms(logs, i)| <= |Terms(logs, k)|
  {
    SubsetSize(Terms(logs, i), Terms(logs, k));
  }

  lemma SomeTerm(logs: seq<Entry>, k: nat)
    requires 1 <= k < |logs|
    ensures 1 <= |Terms(logs, k)|
  {
    assert logs[k].term in Terms(logs, k);
  }

  /** Below the first entry of a term, that term does not occur. */
  lemma TermsBelowRun(nd: Node, k: nat)
    requires Ordered(nd) && 1 <= k < |nd.logs| && 1 <= RunStart(nd.logs, k)
    ensures |Terms(nd.logs, RunStart(nd.logs, k) - 1)| < |Terms(nd.logs, k)|
  {
    var logs := nd.logs;
    var first, t := RunStart(logs, k), logs[k].term;
    assert logs[first].term == t;
    var below, here := Terms(logs, first - 1), Terms(logs, k);
    assert t in here && t !in below;
    SubsetSize(below, here - {t});
  }

  predicate LookCount(k: nat) { true }

  /** At most `b` rejections; stated behind a seal so that the count is not unrolled. */
  ghost predicate Within(l: Node, f: Node, p: nat, next: nat, b: nat)
    requires Pair(l, f) && p < l.n && 1 <= next <= LastIndex(l) + 1
  {
    forall k: nat :: LookCount(k) ==> Rejections(l, f, p, next) <= b
  }

  lemma NoneNeeded(l: Node, f: Node, p: nat, next: nat, b: nat)
    requires Pair(l, f) && p < l.n && 1 <= next <= LastIndex(l) + 1
    requires next <= l.snapLastIndex || Answer(l, f, p, next).success
    ensures Within(l, f, p, next, b)
  {
  }

  /** One more than from where the leader backs up to, if it does. */
  lemma OneMore(l: Node, f: Node, p: nat, next: nat, next': nat, b: nat)
    requires Tries(l, f, p, next) && !Answer(l, f, p, next).success && next' == BackUp(l, Answer(l, f, p, next))
    requires 1 <= next' <= LastIndex(l) + 1 && Within(l, f, p, next', b)
    ensures Within(l, f, p, next, b + 1)
  {
    assert LookCount(0);
    assert Rejections(l, f, p, next) <= 1 + Rejections(l, f, p, next');
  }

  lemma FromSnapshot(l: Node, f: Node, p: nat, b: nat)
    requires Pair(l, f) && p < l.n && f.snapLastIndex <= LastIndex(l)
    ensures Within(l, f, p, f.snapLastIndex + 1, b)
  {
    if l.snapLastIndex <= f.snapLastIndex { AtSnapshot(l, f, p); }
    NoneNeeded(l, f, p, f.snapLastIndex + 1, b);
  }

  /** One attempt may fall below the follower's snapshot, if it has one. */
  function Extra(f: Node): nat {
    if f.snapLastIndex == 0 then 0 else 1
  }

  lemma FromBelow(l: Node, f: Node, p: nat, next: nat, b: nat)
    requires Pair(l, f) && p < l.n && 1 <= next <= LastIndex(l) + 1 && next <= f.snapLastIndex
    ensures Within(l, f, p, next, b + 1)
  {
    if next <= l.snapLastIndex {
      NoneNeeded(l, f, p, next, b + 1);
    } else {
      BelowSnapshot(l, f, p, next);
      FromSnapshot(l, f, p, b);
      OneMore(l, f, p, next, f.snapLastIndex + 1, b);
    }
  }

  lemma FromKnown(l: Node, f: Node, p: nat, next: nat, b: nat)
    requires Tries(l, f, p, next) && f.snapLastIndex < next <= LastIndex(f) + 1 && !Answer(l, f, p, next).success
    requires 0 <= LastOfTerm(l.logs, |l.logs| - 1, Answer(l, f, p, next).conflictTerm)
    ensures Within(l, f, p, next, b + 1 + Extra(f))
  {
    Known(l, f, p, next);
    KnownTermMatchesNext(l, f, p, next);
    var next' := BackUp(l, Answer(l, f, p, next));
    if l.snapLastIndex < next' <= f.snapLastIndex {
      FromBelow(l, f, p, next', b);
    } else {
      NoneNeeded(l, f, p, next', b + Extra(f));
    }
    OneMore(l, f, p, next, next', b + Extra(f));
  }

  /** From where the run of the follower's conflicting term starts. */
  lemma {:induction false} FromRun(l: Node, f: Node, p: nat, next: nat, next': nat, b: nat)
    requires Pair(l, f) && p < l.n && next <= LastIndex(l) + 1 && f.snapLastIndex + 1 < next <= LastIndex(f) + 1
    requires next' == f.snapLastIndex + RunStart(f.logs, next - 1 - f.snapLastIndex) && 1 <= next' < next
    requires |Terms(f.logs, next - 1 - f.snapLastIndex)| <= b + 1
    ensures Within(l, f, p, next', b + Extra(f))
    decreases next, 0
  {
    if next' == f.snapLastIndex {
      FromBelow(l, f, p, next', b);
    } else {
      TermsBelowRun(f, next - 1 - f.snapLastIndex);
      FromWithin(l, f, p, next', b);
    }
  }

  lemma {:induction false} FromWithin(l: Node, f: Node, p: nat, next: nat, b: nat)
    requires Pair(l, f) && p < l.n && 1 <= next <= LastIndex(l) + 1 && f.snapLastIndex < next <= LastIndex(f) + 1
    requires |Terms(f.logs, next - 1 - f.snapLastIndex)| <= b
    ensures Within(l, f, p, next, b + Extra(f))
    decreases next, 1
  {
    if next <= l.snapLastIndex || Answer(l, f, p, next).success {
      NoneNeeded(l, f, p, next, b + Extra(f));
    } else {
      Mismatch(l, f, p, next);
      var k := next - 1 - f.snapLastIndex;
      SomeTerm(f.logs, k);
      if 0 <= LastOfTerm(l.logs, |l.logs| - 1, Answer(l, f, p, next).conflictTerm) {
        FromKnown(l, f, p, next, b - 1);
      } else {
        Unknown(l, f, p, next);
        var next' := f.snapLastIndex + RunStart(f.logs, k);
        FromRun(l, f, p, next, next', b - 1);
        OneMore(l, f, p, next, next', b - 1 + Extra(f));
      }
    }
  }

  lemma FromPastEnd(l: Node, f: Node, p: nat, next: nat, b: nat)
    requires Tries(l, f, p, next) && LastIndex(f) + 1 < next && |Terms(f.logs, |f.logs| - 1)| <= b
    ensures Within(l, f, p, next, b + 1 + Extra(f))
  {
    var next' := LastIndex(f) + 1;
    Short(l, f, p, next);
    FromWithin(l, f, p, next', b);
    OneMore(l, f, p, next, next', b + Extra(f));
  }

  lemma FromAnywhere(l: Node, f: Node, p: nat, next: nat, b: nat)
    requires Pair(l, f) && p < l.n && 1 <= next <= LastIndex(l) + 1 && |Terms(f.logs, |f.logs| - 1)| <= b
    ensures Within(l, f, p, next, b + 1 + Extra(f))
  {
    if next <= l.snapLastIndex {
      NoneNeeded(l, f, p, next, b + 1 + Extra(f));
    } else if next <= f.snapLastIndex {
      FromBelow(l, f, p, next, b + 1);
    } else if next <= LastIndex(f) + 1 {
      FewerTerms(f.logs, next - 1 - f.snapLastIndex, |f.logs| - 1);
      FromWithin(l, f, p, next, b + 1);
    } else {
      FromPastEnd(l, f, p, next, b);
    }
  }

  /** At most one rejection for a short log, one for each term in the follower's log, and one below its snapshot if it has one. */
  lemma RejectionsBounded(l: Node, f: Node, p: nat, next: nat)
    requires Pair(l, f) && p < l.n && 1 <= next <= LastIndex(l) + 1
    ensures Rejections(l, f, p, next) <= (if f.snapLastIndex == 0 then 1 else 2) + |Terms(f.logs, |f.logs| - 1)|
  {
    FromAnywhere(l, f, p, next, |Terms(f.logs, |f.logs| - 1)|);
    assert LookCount(0);
  }

  // ----- in every run -----

  lemma TermOf(c: Core, nd: Node, i: nat)
    requires nd.me < |c.peers| && Mirrors(c, nd) && i < |nd.logs|
    ensures nd.snapLastIndex + i <= |c.peers[nd.me].log| && nd.logs[i].term == TermAt(c.peers[nd.me].log, nd.snapLastIndex + i)
  {
    MirrorTerm(c, nd, nd.snapLastIndex + i);
  }

  lemma TermsRise(c: Core, l: Log, i: nat, j: nat)
    requires TermBounds(c) && Shape(c) && Grounded(c, l) && i <= j <= |l|
    ensures TermAt(l, i) <= TermAt(l, j) && (TermAt(l, i) == 0 <==> i == 0)
  {
    if 1 <= i {
      Monotone(c, l, i - 1, j - 1);
      assert At(l, i - 1) && GroundedAt(c, l, i - 1) && ReignShape(c, l[i - 1].term);
    }
  }

  lemma OrderedServer(c: Core, nd: Node)
    requires Good(c) && nd.me < |c.peers| && Mirrors(c, nd)
    ensures Ordered(nd)
  {
    GoodIsInv(c);
    var l := c.peers[nd.me].log;
    assert Serves(c, nd.me);
    forall i: nat, j: nat | i <= j < |nd.logs|
      ensures nd.logs[i].term <= nd.logs[j].term && (nd.logs[i].term == 0 <==> nd.snapLastIndex + i == 0)
    {
      TermOf(c, nd, i);
      TermOf(c, nd, j);
      TermsRise(c, l, nd.snapLastIndex + i, nd.snapLastIndex + j);
    }
  }

  /** Entries of one term in two logs come from the log of that term's leader. */
  lemma OriginOf(c: Core, a: Log, b: Log, i: nat, j: nat, h: nat)
    requires Shape(c) && Grounded(c, a) && Grounded(c, b) && i <= |a| && j <= |b| && TermAt(a, i) == TermAt(b, j) && h <= i && h <= j
    ensures TermAt(a, h) == TermAt(b, h)
  {
    if 1 <= h {
      assert At(a, i - 1) && GroundedAt(c, a, i - 1) && At(b, j - 1) && GroundedAt(c, b, j - 1);
      var r := c.reigns[a[i - 1].term].log;
      assert a[..i - 1 + 1][h - 1] == r[h - 1] == b[..j - 1 + 1][h - 1];
    }
  }

  lemma OriginServers(c: Core, x: Node, y: Node)
    requires Good(c) && x.me < |c.peers| && Mirrors(c, x) && y.me < |c.peers| && Mirrors(c, y)
    ensures SameOrigin(x, y)
  {
    GoodIsInv(c);
    assert Serves(c, x.me) && Serves(c, y.me);
    forall i: nat, j: nat | Holds(x, i) && Holds(y, j) && LogTerm(x, i) == LogTerm(y, j) ensures SameTermsUpTo(x, y, Min(i, j)) {
      MirrorTerm(c, x, i);
      MirrorTerm(c, y, j);
      forall h: nat | h <= Min(i, j) && Holds(x, h) && Holds(y, h) ensures LogTerm(x, h) == LogTerm(y, h) {
        MirrorTerm(c, x, h);
        MirrorTerm(c, y, h);
        OriginOf(c, c.peers[x.me].log, c.peers[y.me].log, i, j, h);
      }
    }
  }

  /** What a follower has compacted was committed, so the leader has it. */
  lemma CoversServers(c: Core, l: Node, f: Node)
    requires Good(c) && l.me < |c.peers| && Mirrors(c, l) && f.me < |c.peers| && Mirrors(c, f)
    requires IsLeader(c, l.me) && f.currentTerm <= l.currentTerm
    ensures Covers(l, f)
  {
    GoodIsInv(c);
    var p, r, snap := c.peers[f.me], c.peers[l.me].log, f.snapLastIndex;
    assert Serves(c, f.me) && CommitSafe(c, f.me);
    CommittedInReign(c, p.term, p.log[..p.commit], l.currentTerm);
    MirrorTerm(c, f, snap);
    assert TermAt(p.log, snap) == TermAt(p.log[..p.commit], snap) == TermAt(r, snap);
    if l.snapLastIndex <= snap { MirrorTerm(c, l, snap); }
  }

  lemma PairInRun(cl: Cluster, c: Core, s: nat, u: nat)
    requires Tied(cl, c) && s < |cl.nodes| && u < |cl.nodes| && s != u && cl.nodes[s].role == Leader
    requires cl.nodes[u].currentTerm <= cl.nodes[s].currentTerm
    ensures
      var l := cl.nodes[s];
      Pair(l, cl.nodes[u]) && u < l.n && 1 <= l.nextIndex[u] <= LastIndex(l) + 1
  {
    var l, f := cl.nodes[s], cl.nodes[u];
    Actors(cl, c, s);
    Actors(cl, c, u);
    FineIsOK(c, l);
    FineIsOK(c, f);
    OrderedServer(c, l);
    OrderedServer(c, f);
    OriginServers(c, l, f);
    CoversServers(c, l, f);
    assert Other(l, u) && PeerOK(c, l, u);
  }

  lemma BehindRun(run: seq<Cluster>, acts: seq<Action>, i: nat) returns (c: Core)
    requires IsRun(run, acts) && i < |run|
    ensures Tied(run[i], c)
  {
    var cores := Shadow(run, acts);
    c := cores[i];
  }

  /** One rejection for each term in the log of `f` and one more, two if it has compacted. */
  ghost predicate FewRejections(l: Node, f: Node, u: nat) {
    && Pair(l, f) && u < l.n && 1 <= l.nextIndex[u] <= LastIndex(l) + 1
    && Rejections(l, f, u, l.nextIndex[u]) <= (if f.snapLastIndex == 0 then 1 else 2) + |Terms(f.logs, |f.logs| - 1)|
  }

  lemma BoundInCore(cl: Cluster, c: Core, s: nat, u: nat)
    requires Tied(cl, c) && s < |cl.nodes| && u < |cl.nodes| && s != u && cl.nodes[s].role == Leader
    requires cl.nodes[u].currentTerm <= cl.nodes[s].currentTerm
    ensures FewRejections(cl.nodes[s], cl.nodes[u], u)
  {
    PairInRun(cl, c, s, u);
    RejectionsBounded(cl.nodes[s], cl.nodes[u], u, cl.nodes[s].nextIndex[u]);
  }

  /**
   * In every run, from any leader to any peer not in a later term, compacted or not: acceptance or a
   * snapshot comes after at most one rejection for each term in the peer's log and one more, two if it has compacted.
   */
  lemma BackUpBounded(run: seq<Cluster>, acts: seq<Action>, i: nat, s: nat, u: nat)
    requires IsRun(run, acts) && i < |run| && s < |run[i].nodes| && u < |run[i].nodes| && s != u
    requires run[i].nodes[s].role == Leader && run[i].nodes[u].currentTerm <= run[i].nodes[s].currentTerm
    ensures FewRejections(run[i].nodes[s], run[i].nodes[u], u)
  {
    var c := BehindRun(run, acts, i);
    BoundInCore(run[i], c, s, u);
  }
}
