/** Runs that really leave a wrong entry in a cache, although no DEL is lost and nobody crashes: they show that the causes
    named in Caches cannot be dropped. */
module StaleRuns {
  import opened Domain
  import opened Caches
  import opened CacheAside
  import opened Uncontended
  import opened Witnesses
  import Protocol

  predicate AllKeepDels(acts: seq<Protocol.Action>) {
    forall a <- acts :: KeepsDels(a)
  }

  /** No cached entry is newer, and the readers and the past are as they were. */
  predicate OnlyDeletes(s: State, s': State) {
    && s'.now == s.now && s'.balances.readers == s.balances.readers && s'.statuses.readers == s.statuses.readers
    && s.balances.hist <= s'.balances.hist && s.statuses.hist <= s'.statuses.hist
  }

  /** Any continuation of the protocol can happen beside readers that wait, with every DEL reaching the cache. */
  lemma {:induction false} Beside(c: Config, acts: seq<Action>, target: seq<Protocol.Action>) returns (longer: seq<Action>)
    requires Run(c, acts).Some? && NoDelIsLost(acts)
    requires ProtocolActions(acts) <= target && Protocol.Run(c.base, target).Some?
    requires AllKeepDels(target[|ProtocolActions(acts)|..])
    ensures Run(c, longer).Some? && NoDelIsLost(longer) && ProtocolActions(longer) == target
    ensures OnlyDeletes(Run(c, acts).value, Run(c, longer).value)
    ensures Run(c, longer).value.p == Protocol.Run(c.base, target).value
    ensures (forall a <- target[|ProtocolActions(acts)|..] :: !a.Invalidate?) ==>
              Run(c, longer).value.statuses.entries == Run(c, acts).value.statuses.entries
    decreases |target|
  {
    hide Run, Apply, Enabled, Protocol.Enabled, Protocol.Apply;
    longer := acts;
    CachesDoNotInterfere(c, acts);
    if ProtocolActions(acts) != target {
      var init, a := target[..|target| - 1], target[|target| - 1];
      var n := |ProtocolActions(acts)|;
      assert a in target[n..];
      forall b | b in init[n..] ensures b in target[n..] {}
      longer := Beside(c, acts, init);
      StepBeside(c, Run(c, longer).value, a);
      longer := Extended(c, longer, Run(c, longer).value, Step(a, true));
      assert longer[..|longer| - 1] + [Step(a, true)] == longer && init + [a] == target;
    }
  }

  lemma StepBeside(c: Config, s: State, a: Protocol.Action)
    requires Remembers(s) && Protocol.Enabled(c.base, s.p, a)
    ensures Enabled(c, s, Step(a, true)) && OnlyDeletes(s, Apply(c, s, Step(a, true)))
    ensures Apply(c, s, Step(a, true)).p == Protocol.Apply(c.base, s.p, a)
    ensures !a.Invalidate? && !a.Crash? ==> Apply(c, s, Step(a, true)).statuses.entries == s.statuses.entries
  {
    hide Protocol.Enabled, Protocol.Apply;
  }

  const HOLDS := Protocol.Init(Without(0))

  /** A reader has read the balance of account 1 and not set the key yet. */
  lemma ReadBeforeTransfer(c: Config) returns (acts: seq<Action>)
    requires c.Valid() && c.base == Without(0)
    ensures Run(c, acts).Some? && NoDelIsLost(acts) && ProtocolActions(acts) == []
    ensures var s := Run(c, acts).value;
            s.p == HOLDS && s.now == 0 && s.balances.hist == [Snap(0, OPEN)] && s.balances.readers == map[0 := Fetched(1, 100, 0)]
  {
    hide Run, ProtocolActions;
    NothingYet(c);
    var s := Init(c);
    acts := Extended(c, [], s, BalanceMiss(0, 1));
    ReadsAreNoProtocol([], BalanceMiss(0, 1));
    var s1 := s.(balances := Cache(map[], map[0 := Missed(1)], [Snap(0, OPEN)]));
    assert Apply(c, s, BalanceMiss(0, 1)) == s1;
    acts := Extended(c, acts, s1, BalanceFetch(0, 0));
    ReadsAreNoProtocol([] + [BalanceMiss(0, 1)], BalanceFetch(0, 0));
  }

  /** A transfer overtakes a reader between its read and its set: the old balance is served although the writer has
      deleted the key and nobody is at work any more. */
  lemma OvertakenReaderIsStale(c: Config) returns (acts: seq<Action>)
    requires c.Valid() && c.base == Without(0)
    ensures Run(c, acts).Some? && NoDelIsLost(acts)
    ensures var s := Run(c, acts).value;
            && s.p.threads == map[] && s.p.db.bal == AFTER1
            && Hit(s.balances, 1, s.now) && s.balances.entries[1].value == 100
            && Overtaken(s.balances.hist, 1, 100, s.balances.entries[1].seen, s.balances.entries[1].setAt)
  {
    hide Run, Protocol.Run;
    acts := ReadBeforeTransfer(c);
    var target := Transferred();
    acts := Beside(c, acts, target);
    acts := SetAfterwards(c, acts, Run(c, acts).value);
    DisagreementIsARace(c, acts, 1);
  }

  lemma Transferred() returns (target: seq<Protocol.Action>)
    ensures Protocol.Run(Without(0), target).Some? && AllKeepDels(target)
    ensures var p := Protocol.Run(Without(0), target).value; p.threads == map[] && p.db.bal == AFTER1
  {
    NoActions(Without(0));
    target := SyncTransfer(Without(0), [], HOLDS, JOB.req, ID);
    assert AfterSync(HOLDS, JOB.req, ID).db.bal == AFTER1;
  }

  lemma SetAfterwards(c: Config, acts: seq<Action>, s: State) returns (longer: seq<Action>)
    requires c.Valid() && Run(c, acts) == Some(s) && Remembers(s) && NoDelIsLost(acts)
    requires s.now == 0 && [Snap(0, OPEN)] <= s.balances.hist && s.balances.readers == map[0 := Fetched(1, 100, 0)]
    ensures Run(c, longer).Some? && NoDelIsLost(longer)
    ensures var s' := Run(c, longer).value;
            s'.p == s.p && Hit(s'.balances, 1, s'.now) && s'.balances.entries[1].value == 100
  {
    longer := Extended(c, acts, s, BalanceSet(0, true));
  }

  // ---------------------------------------------------------------- the failure path deletes no status key

  /** A client has just been told "pending" and the answer is cached. */
  lemma PendingCached(c: Config) returns (acts: seq<Action>)
    requires c.Valid() && c.base == Without(0)
    ensures Run(c, acts).Some? && NoDelIsLost(acts) && AllKeepDels(ProtocolActions(acts))
    ensures var s := Run(c, acts).value;
            && s.p == OneRow(OPEN, [], Pending, map[], READY) && Hit(s.statuses, ID, s.now)
            && s.statuses.entries[ID].value == Pending
  {
    hide Run;
    NothingYet(c);
    var published := PublishedRun(0);
    acts := Beside(c, [], published);
    var s := Run(c, acts).value;
    CurrentStatuses(c, acts);
    assert s.p.rows == map[ID := Row(JOB.req, Pending)];
    acts := StatusAsked(c, acts, s);
  }

  /** The last snapshot is the present one. */
  lemma CurrentStatuses(c: Config, acts: seq<Action>)
    requires c.Valid() && c.base.Reliable() && Run(c, acts).Some?
    ensures var s := Run(c, acts).value;
            Now(s.statuses) == StatusData(s.p.rows) && s.statuses.hist[|s.statuses.hist| - 1].at == s.now
  {
    hide Apply, Enabled;
    RunStatuses(c, acts);
    LastIsNow(c, acts);
  }

  lemma NothingYet(c: Config)
    ensures Run(c, []) == Some(Init(c)) && ProtocolActions([]) == [] && NoDelIsLost([])
  {
  }

  lemma StatusAsked(c: Config, acts: seq<Action>, s: State) returns (longer: seq<Action>)
    requires c.Valid() && Run(c, acts) == Some(s) && Remembers(s) && NoDelIsLost(acts)
    requires s.p.rows.Keys == {ID} && s.p.rows[ID].status == Pending && Now(s.statuses) == StatusData(s.p.rows)
    requires s.statuses.readers == map[] && s.statuses.hist[|s.statuses.hist| - 1].at == s.now
    ensures Run(c, longer).Some? && NoDelIsLost(longer) && ProtocolActions(longer) == ProtocolActions(acts)
    ensures var s' := Run(c, longer).value;
            s'.p == s.p && Hit(s'.statuses, ID, s'.now) && s'.statuses.entries[ID].value == Pending
  {
    hide Run;
    longer := Extended(c, acts, s, StatusMiss(0, ID));
    var s1 := Apply(c, s, StatusMiss(0, ID));
    longer := Extended(c, longer, s1, StatusFetch(0, |s.statuses.hist| - 1));
    var s2 := Apply(c, s1, StatusFetch(0, |s.statuses.hist| - 1));
    longer := Extended(c, longer, s2, StatusSet(0, true));
    ReadsAreNoProtocol(acts, StatusMiss(0, ID));
    ReadsAreNoProtocol(acts + [StatusMiss(0, ID)], StatusFetch(0, |s.statuses.hist| - 1));
    ReadsAreNoProtocol(acts + [StatusMiss(0, ID)] + [StatusFetch(0, |s.statuses.hist| - 1)], StatusSet(0, true));
  }

  lemma ReadsAreNoProtocol(acts: seq<Action>, a: Action)
    requires !a.Step?
    ensures ProtocolActions(acts + [a]) == ProtocolActions(acts)
  {
    assert (acts + [a])[..|acts|] == acts;
  }

  /** The worker then fails to settle, marks the row failed and rejects the message: "failed" is final, and "pending" is
      still served, as the failure path deletes no key. */
  lemma FailureLeavesPendingCached(c: Config) returns (acts: seq<Action>)
    requires c.Valid() && c.base == Without(0)
    ensures Run(c, acts).Some? && NoDelIsLost(acts)
    ensures var s := Run(c, acts).value;
            && ID in s.p.rows && s.p.rows[ID].status == Failed && JOB in s.p.broker.dlq && s.p.threads == map[]
            && Hit(s.statuses, ID, s.now) && s.statuses.entries[ID].value == Pending
  {
    hide Run, AllKeepDels, Protocol.Run;
    acts := PendingCached(c);
    CachesDoNotInterfere(c, acts);
    var target := RejectedAfter(ProtocolActions(acts));
    acts := Beside(c, acts, target);
  }

  lemma RejectedAfter(acts: seq<Protocol.Action>) returns (target: seq<Protocol.Action>)
    requires Protocol.Run(Without(0), acts) == Some(OneRow(OPEN, [], Pending, map[], READY))
    ensures acts <= target && Protocol.Run(Without(0), target).Some?
    ensures AllKeepDels(target[|acts|..]) && forall a <- target[|acts|..] :: !a.Invalidate?
    ensures var p := Protocol.Run(Without(0), target).value;
            ID in p.rows && p.rows[ID].status == Failed && JOB in p.broker.dlq && p.threads == map[]
  {
    hide Protocol.Run, Protocol.Apply, Protocol.Enabled, Protocol.AllWork, Protocol.Works;
    var marked := MarkedAfterError(acts);
    RejectedState();
    target := Extend(Without(0), marked, MARKED, Protocol.Nack(1));
    assert target[|acts|..] == FAILING + [Protocol.Nack(1)];
  }

  lemma RejectedState()
    ensures Protocol.Enabled(Without(0), MARKED, Protocol.Nack(1))
    ensures var p := Protocol.Apply(Without(0), MARKED, Protocol.Nack(1));
            p.threads == map[] && JOB in p.broker.dlq && p.rows == MARKED.rows
  {
    assert MARKED.threads - {1} == map[];
  }
}
