/** Migration is token passing: every step of every run keeps the invariant of module
    Migration. */
module TokenPassing {
  import opened TxnManager
  import opened Migration

  predicate SameSize(s: State) {
    |s.rounds| == |s.migratedRounds| == |s.tables|
  }

  /** The one transaction a step is about keeps or changes its holder; the others keep it. */
  lemma OthersFit(s: State, s': State, id: TxnId)
    requires Inv(s) && SameSize(s') && Known(s')
    requires forall x :: x in s'.txns && x != id ==> x in s.txns && Untouched(s, s', x)
    requires id in s'.txns ==> exists h :: Fits(s', id, h)
    ensures Inv(s')
  {
    forall x | x in s'.txns
      ensures exists h :: Fits(s', x, h)
    {
      if x != id {
        var h :| Fits(s, x, h);
        UntouchedFits(s, s', x, h);
      }
    }
  }

  lemma SameHolder(s: State, id: TxnId, t: Txn, h: Holder)
    requires SameSize(s) && HeldOnlyBy(s, id, h)
    ensures HeldOnlyBy(s.(txns := s.txns[id := t]), id, h)
  {
    var s' := s.(txns := s.txns[id := t]);
    forall v: nat | v < |s'.tables| ensures HeldIn(s', id, h, v) { assert HeldIn(s, id, h, v); }
  }

  lemma OnlyTxnChanged(s: State, id: TxnId, t: Txn)
    requires SameSize(s) && Known(s) && id in s.txns
    ensures var s' := s.(txns := s.txns[id := t]);
            Known(s') && forall x :: x in s'.txns && x != id ==> x in s.txns && Untouched(s, s', x)
  {
    assert s.txns[id := t].Keys == s.txns.Keys;
  }

  /** Steps that change only the goroutine's side. */
  lemma TxnChanges(s: State, id: TxnId, t: Txn, h: Holder)
    requires Inv(s) && id in s.txns && Fits(s, id, h)
    requires HistoryFits(t) && ChannelsFit(t) && AnswersFit(t) && t.handled == s.txns[id].handled
    requires HolderFits(s, id, t, h)
    ensures Inv(s.(txns := s.txns[id := t]))
  {
    var s' := s.(txns := s.txns[id := t]);
    SameHolder(s, id, t, h);
    OnlyTxnChanged(s, id, t);
    hide Known, Untouched, HeldOnlyBy, HistoryFits, ChannelsFit, AnswersFit, EndsFit;
    assert Fits(s', id, h);
    OthersFit(s, s', id);
  }

  lemma IssueKeepsInv(s: State, id: TxnId, cmd: Command)
    requires Inv(s) && Enabled(s, Issue(id, cmd))
    ensures Inv(Step(s, Issue(id, cmd)))
  {
    var h :| Fits(s, id, h);
    var t, t' := s.txns[id], Issued(s.txns[id], cmd);
    if |t.commands| < CAPACITY {
      assert t.handled <= t'.issued;
      TxnChanges(s, id, t', h);
    } else {
      assert s.txns[id := t] == s.txns;
    }
  }

  lemma ReceiveKeepsInv(s: State, id: TxnId)
    requires Inv(s) && Enabled(s, Receive(id))
    ensures Inv(Step(s, Receive(id)))
  {
    var h :| Fits(s, id, h);
    TxnChanges(s, id, Received(s.txns[id]), h);
  }

  /** The transaction a step is about. */
  function Subject(s: State, e: Event): TxnId
    requires Enabled(s, e) && !e.BeginRound? && !e.BeginMigratedRound?
  {
    match e
    case Start(v) => TxnId(v, s.tables[v].nextTxnID)
    case Deliver(r) => s.inFlight[r].id
    case Issue(id, _) => id
    case Receive(id) => id
    case Exit(id) => id
    case Handle(_, id) => id
    case HandleMigrated(_, id) => id
    case Route(_, id) => id
  }

  /** Two tables that agree on a transaction. */
  predicate SameEntry(t: Tables, t': Tables, x: TxnId) {
    && (x in t'.active <==> x in t.active) && Waits(t'.active, x) == Waits(t.active, x)
    && (x in t'.migrated <==> x in t.migrated) && Waits(t'.migrated, x) == Waits(t.migrated, x)
  }

  lemma StepSparesEntries(s: State, e: Event, x: TxnId, v: nat)
    requires SameSize(s) && Enabled(s, e) && !e.BeginRound? && !e.BeginMigratedRound?
    requires x != Subject(s, e) && v < |s.tables|
    ensures |Step(s, e).tables| == |s.tables| && SameEntry(s.tables[v], Step(s, e).tables[v], x)
  {
    if e.Handle? || e.HandleMigrated? {
      HandlingSparesEntries(s, e, x, v);
    } else {
      hide HandleYield, HandleMigratedYield;
    }
  }

  lemma HandlingSparesEntries(s: State, e: Event, x: TxnId, v: nat)
    requires SameSize(s) && Enabled(s, e) && (e.Handle? || e.HandleMigrated?)
    requires x != e.id && v < |s.tables|
    ensures |Step(s, e).tables| == |s.tables| && SameEntry(s.tables[v], Step(s, e).tables[v], x)
  {
  }

  lemma StepSparesTheRest(s: State, e: Event, x: TxnId)
    requires SameSize(s) && Enabled(s, e) && !e.BeginRound? && !e.BeginMigratedRound?
    requires x in s.txns && x != Subject(s, e)
    requires forall r :: r in s.inFlight ==> r < s.sent
    ensures var s' := Step(s, e);
            && SameSize(s') && |s'.rounds| == |s.rounds|
            && x in s'.txns && s'.txns[x] == s.txns[x]
            && (forall v :: 0 <= v < |s.rounds| ==> s'.rounds[v] <= s.rounds[v] && s'.migratedRounds[v] <= s.migratedRounds[v])
            && (forall r :: r in s'.inFlight && s'.inFlight[r].id == x ==> r in s.inFlight)
            && (forall r :: r in s'.inFlight && r in s.inFlight ==> s.inFlight[r] == s'.inFlight[r])
            && (forall r :: r in s.inFlight && s.inFlight[r].id == x ==> r in s'.inFlight)
  {
  }

  lemma OthersUntouched(s: State, e: Event, x: TxnId)
    requires SameSize(s) && Known(s) && Enabled(s, e) && !e.BeginRound? && !e.BeginMigratedRound?
    requires x in s.txns && x != Subject(s, e)
    ensures Untouched(s, Step(s, e), x)
  {
    StepSparesTheRest(s, e, x);
    hide Step, Subject, Waits, Known;
    forall v: nat | v < |s.tables|
      ensures SameEntry(s.tables[v], Step(s, e).tables[v], x)
    {
      StepSparesEntries(s, e, x, v);
    }
  }

  /** Every step but the start of a round is about one transaction. */
  predicate HasSubject(s: State, e: Event) {
    SameSize(s) && Enabled(s, e) && !e.BeginRound? && !e.BeginMigratedRound?
  }

  lemma StepKeepsTxns(s: State, e: Event)
    requires HasSubject(s, e)
    ensures SameSize(Step(s, e)) && |Step(s, e).tables| == |s.tables|
    ensures Step(s, e).txns.Keys == s.txns.Keys + {Subject(s, e)}
  {
  }

  lemma TablesStayKnown(s: State, e: Event)
    requires HasSubject(s, e) && TablesKnown(s)
    ensures TablesKnown(Step(s, e))
  {
  }

  lemma RoundsStayKnown(s: State, e: Event)
    requires HasSubject(s, e) && RoundsKnown(s)
    ensures SameSize(Step(s, e)) && RoundsKnown(Step(s, e))
  {
  }

  lemma RequestsStayKnown(s: State, e: Event)
    requires HasSubject(s, e) && RequestsKnown(s)
    ensures RequestsKnown(Step(s, e))
  {
  }

  lemma IdsStayUsedOnce(s: State, e: Event)
    requires HasSubject(s, e) && IdsUsedOnce(s)
    ensures IdsUsedOnce(Step(s, e))
  {
  }

  lemma StaysKnown(s: State, e: Event)
    requires SameSize(s) && Known(s) && Enabled(s, e) && !e.BeginRound? && !e.BeginMigratedRound?
    ensures SameSize(Step(s, e)) && Known(Step(s, e))
    ensures Subject(s, e) in Step(s, e).txns
    ensures forall x :: x in Step(s, e).txns && x != Subject(s, e) ==> x in s.txns
  {
    hide Step, TablesKnown, RoundsKnown, RequestsKnown, IdsUsedOnce;
    StepKeepsTxns(s, e);
    assert Subject(s, e) in Step(s, e).txns.Keys;
    TablesStayKnown(s, e);
    RoundsStayKnown(s, e);
    RequestsStayKnown(s, e);
    IdsStayUsedOnce(s, e);
  }

  /** It is enough to know what becomes of the subject. */
  lemma SubjectFits(s: State, e: Event, h: Holder)
    requires Inv(s) && Enabled(s, e) && !e.BeginRound? && !e.BeginMigratedRound?
    requires SameSize(Step(s, e)) && Subject(s, e) in Step(s, e).txns && Fits(Step(s, e), Subject(s, e), h)
    ensures Inv(Step(s, e))
  {
    hide Step, Fits, Untouched, Known;
    StaysKnown(s, e);
    forall x | x in Step(s, e).txns && x != Subject(s, e)
      ensures Untouched(s, Step(s, e), x)
    {
      OthersUntouched(s, e, x);
    }
    OthersFit(s, Step(s, e), Subject(s, e));
  }

  lemma StartFits(s: State, v: nat)
    requires Inv(s) && Enabled(s, Start(v))
    ensures SameSize(Step(s, Start(v)))
    ensures Fits(Step(s, Start(v)), TxnId(v, s.tables[v].nextTxnID), Home)
  {
    var id, s' := TxnId(v, s.tables[v].nextTxnID), Step(s, Start(v));
    assert id !in s.txns;
    forall w: nat | w < |s'.tables| ensures HeldIn(s', id, Home, w) {
      assert id !in s.tables[w].active && id !in s.tables[w].migrated && id !in s.rounds[w] && id !in s.migratedRounds[w];
    }
  }

  lemma ExitHolds(s: State, id: TxnId, h: Holder)
    requires SameSize(s) && Enabled(s, Exit(id)) && HeldOnlyBy(s, id, h)
    ensures SameSize(Step(s, Exit(id)))
    ensures HeldOnlyBy(Step(s, Exit(id)), id, if h == Home then Left else h)
  {
    var s', h' := Step(s, Exit(id)), if h == Home then Left else h;
    forall v: nat | v < |s'.tables| ensures HeldIn(s', id, h', v) { assert HeldIn(s, id, h, v); }
  }

  lemma ExitFits(s: State, id: TxnId, h: Holder)
    requires Inv(s) && Enabled(s, Exit(id)) && Fits(s, id, h)
    ensures SameSize(Step(s, Exit(id)))
    ensures Fits(Step(s, Exit(id)), id, if h == Home then Left else h)
  {
    ExitHolds(s, id, h);
    hide HeldOnlyBy, Known;
    assert Step(s, Exit(id)).txns[id] == s.txns[id].(point := Exited);
  }

  lemma RouteFits(s: State, v: nat, id: TxnId, h: Holder)
    requires Inv(s) && Enabled(s, Route(v, id)) && Fits(s, id, h)
    ensures SameSize(Step(s, Route(v, id)))
    ensures Fits(Step(s, Route(v, id)), id, h)
  {
    var s' := Step(s, Route(v, id));
    assert HeldIn(s, id, h, v);
    forall w: nat | w < |s'.tables| ensures HeldIn(s', id, h, w) { assert HeldIn(s, id, h, w); }
  }

  lemma DeliverFits(s: State, r: nat, h: Holder)
    requires Inv(s) && Enabled(s, Deliver(r)) && Fits(s, s.inFlight[r].id, h)
    ensures SameSize(Step(s, Deliver(r)))
    ensures Fits(Step(s, Deliver(r)), s.inFlight[r].id, At(s.inFlight[r].target))
  {
    var id, s' := s.inFlight[r].id, Step(s, Deliver(r));
    assert h == Travelling(r);
    DeliverHolds(s, r);
    DeliverAnswers(s, r);
    AnsweredFits(s.txns[id], s.inFlight[r].target);
    hide HeldOnlyBy, HistoryFits, ChannelsFit, Known, JustDelivered, Step;
    assert HolderFits(s', id, s'.txns[id], At(s.inFlight[r].target));
  }

  lemma AnsweredFits(t: Txn, target: nat)
    requires HistoryFits(t) && ChannelsFit(t)
    requires t.point == Blocked(MigrateTo(target)) && t.commands == [] && t.resumes == []
    ensures var t' := t.(resumes := [Moved(target)]); HistoryFits(t') && ChannelsFit(t') && JustDelivered(t', target)
  {
  }

  /** The goroutine that asked to move is told so, and nothing else is there for it. */
  lemma DeliverAnswers(s: State, r: nat)
    requires SameSize(s) && Enabled(s, Deliver(r))
    requires var t := s.txns[s.inFlight[r].id];
             t.point == Blocked(MigrateTo(s.inFlight[r].target)) && t.commands == [] && t.resumes == []
    ensures var m, s' := s.inFlight[r], Step(s, Deliver(r));
            && m.id in s'.txns && s'.txns[m.id] == s.txns[m.id].(resumes := [Moved(m.target)])
            && m.target < |s'.tables| && !Waits(s'.tables[m.target].migrated, m.id)
  {
  }

  lemma DeliverHolds(s: State, r: nat)
    requires SameSize(s) && Enabled(s, Deliver(r)) && HeldOnlyBy(s, s.inFlight[r].id, Travelling(r))
    ensures SameSize(Step(s, Deliver(r))) && HeldOnlyBy(Step(s, Deliver(r)), s.inFlight[r].id, At(s.inFlight[r].target))
  {
    var m, s' := s.inFlight[r], Step(s, Deliver(r));
    forall w: nat | w < |s'.tables| ensures HeldIn(s', m.id, At(m.target), w) { assert HeldIn(s, m.id, Travelling(r), w); }
  }

  lemma RoundKeepsInv(s: State, e: Event)
    requires Inv(s) && Enabled(s, e) && (e.BeginRound? || e.BeginMigratedRound?)
    ensures Inv(Step(s, e))
  {
    var s' := Step(s, e);
    forall x | x in s'.txns
      ensures exists h :: Fits(s', x, h)
    {
      var h :| Fits(s, x, h);
      RoundTouchesNothing(s, e, x);
      hide Fits, Untouched, Step, Known;
      UntouchedFits(s, s', x, h);
    }
    RoundStaysKnown(s, e);
    hide Fits, Step, Known;
  }

  lemma RoundTouchesNothing(s: State, e: Event, x: TxnId)
    requires SameSize(s) && Known(s) && x in s.txns && Enabled(s, e) && (e.BeginRound? || e.BeginMigratedRound?)
    ensures Untouched(s, Step(s, e), x)
  {
  }

  lemma RoundStaysKnown(s: State, e: Event)
    requires SameSize(s) && Known(s) && Enabled(s, e) && (e.BeginRound? || e.BeginMigratedRound?)
    ensures SameSize(Step(s, e)) && Known(Step(s, e)) && Step(s, e).txns == s.txns
  {
  }

  /** Taking a command that was issued on node v keeps the history. */
  lemma TakingFits(t: Txn, v: nat)
    requires HistoryFits(t) && ChannelsFit(t) && t.commands != [] && t.node == v
    ensures HistoryFits(Taken(t, v))
    ensures Blocks(t.commands[0]) ==> t.commands == [t.commands[0]] && t.point == Blocked(t.commands[0]) && t.resumes == []
    ensures !Blocks(t.commands[0]) ==> ChannelsFit(Taken(t, v)) && (PendingIfMigrating(t) ==> PendingIfMigrating(Taken(t, v)))
    ensures t.resumes == []
  {
    var t' := Taken(t, v);
    assert t.issued[|t.handled| + 0] == (v, t.commands[0]);
    assert t'.handled <= t'.issued;
    forall j | 0 <= j < |t'.commands|
      ensures t'.issued[|t'.handled| + j] == (t'.node, t'.commands[j])
    {
      assert t.issued[|t.handled| + (j + 1)] == (t.node, t.commands[j + 1]);
    }
  }

  /** Where a transaction is after a manager has handled its front command. */
  function NextHolder(s: State, h: Holder, cmd: Command): Holder {
    if cmd.MigrateTo? then Travelling(s.sent)
    else if cmd.Complete? && h.At? then Done
    else h
  }

  /** What the manager does to the transaction with its front command. */
  function AfterCommand(t: Txn, v: nat): Txn
    requires t.commands != []
  {
    Taken(t, v).(resumes := if t.commands[0].SendAndWait? then Resume(t.resumes, Ack) else t.resumes)
  }

  lemma AfterCommandFits(t: Txn, v: nat)
    requires HistoryFits(t) && ChannelsFit(t) && AnswersFit(t) && t.commands != [] && t.node == v
    ensures var t' := AfterCommand(t, v);
            && HistoryFits(t') && ChannelsFit(t') && AnswersFit(t') && t'.handled == t.handled + [(v, t.commands[0])]
            && (IsWaiting(t') <==> t.commands[0].WaitForMessage?)
            && t'.node == v && t'.point == t.point
            && (t.commands[0].MigrateTo? ==> t'.point == Blocked(t.commands[0]) && t'.commands == [] && t'.resumes == [])
            && (!t.commands[0].MigrateTo? && PendingIfMigrating(t) ==> PendingIfMigrating(t'))
  {
    TakingFits(t, v);
  }

  /** Where it is then agrees with what has been handled. */
  lemma NextHolderFits(s: State, h: Holder, handled: seq<(nat, Command)>, v: nat, cmd: Command)
    requires EndsFit(handled, h) && (h == Home || h == Left || h == At(v)) && (h == Left ==> !cmd.MigrateTo?)
    ensures EndsFit(handled + [(v, cmd)], NextHolder(s, h, cmd))
  {
    OneMoreHandled(handled, v, cmd);
    assert CompletedAway(handled) ==> SentOff(handled);
    hide SentOff, CompletedAway;
  }

  lemma HandleHolds(s: State, v: nat, id: TxnId, h: Holder)
    requires SameSize(s) && RequestsKnown(s) && Enabled(s, Handle(v, id)) && s.txns[id].commands != [] && HeldOnlyBy(s, id, h)
    requires h == Home || h == Left
    requires h == Left ==> !s.txns[id].commands[0].MigrateTo?
    ensures SameSize(Step(s, Handle(v, id)))
    ensures HeldOnlyBy(Step(s, Handle(v, id)), id, NextHolder(s, h, s.txns[id].commands[0]))
  {
    var s', h' := Step(s, Handle(v, id)), NextHolder(s, h, s.txns[id].commands[0]);
    assert HeldIn(s, id, h, v);
    forall w: nat | w < |s'.tables| ensures HeldIn(s', id, h', w) { assert HeldIn(s, id, h, w); }
  }

  lemma HandleResult(s: State, v: nat, id: TxnId)
    requires SameSize(s) && Enabled(s, Handle(v, id)) && s.txns[id].commands != []
    ensures var s', cmd := Step(s, Handle(v, id)), s.txns[id].commands[0];
            && id in s'.txns && s'.txns[id] == AfterCommand(s.txns[id], v)
            && |s'.tables| == |s.tables|
            && Waits(s'.tables[v].active, id) == (if cmd.WaitForMessage? then id in s.tables[v].active
                                                  else if cmd.MigrateTo? then false else Waits(s.tables[v].active, id))
            && (cmd.MigrateTo? ==> s.sent in s'.inFlight && s'.inFlight[s.sent] == Migrant(id, v, cmd.target))
  {
  }

  lemma HandleFits(s: State, v: nat, id: TxnId, h: Holder)
    requires Inv(s) && Enabled(s, Handle(v, id)) && s.txns[id].commands != [] && Fits(s, id, h)
    ensures SameSize(Step(s, Handle(v, id))) && id in Step(s, Handle(v, id)).txns
    ensures Fits(Step(s, Handle(v, id)), id, NextHolder(s, h, s.txns[id].commands[0]))
  {
    var t, h' := s.txns[id], NextHolder(s, h, s.txns[id].commands[0]);
    assert HeldIn(s, id, h, v);
    AfterCommandFits(t, v);
    HandleHolds(s, v, id, h);
    HandleResult(s, v, id);
    NoLongerWaiting(t);
    NextHolderFits(s, h, t.handled, v, t.commands[0]);
    hide HeldOnlyBy, HistoryFits, ChannelsFit, Known, Step, AfterCommand, PendingIfMigrating, IsWaiting, AnswersFit, EndsFit;
    var s' := Step(s, Handle(v, id));
    assert HolderFits(s', id, s'.txns[id], h');
  }

  /** Who has a command to be handled does not wait for a message. */
  lemma NoLongerWaiting(t: Txn)
    requires t.commands != []
    ensures !IsWaiting(t)
  {
  }

  lemma HandleMigratedHolds(s: State, v: nat, id: TxnId)
    requires SameSize(s) && RequestsKnown(s) && Enabled(s, HandleMigrated(v, id)) && s.txns[id].commands != [] && HeldOnlyBy(s, id, At(v))
    ensures SameSize(Step(s, HandleMigrated(v, id)))
    ensures HeldOnlyBy(Step(s, HandleMigrated(v, id)), id, NextHolder(s, At(v), s.txns[id].commands[0]))
  {
    var s', h' := Step(s, HandleMigrated(v, id)), NextHolder(s, At(v), s.txns[id].commands[0]);
    assert HeldIn(s, id, At(v), v);
    forall w: nat | w < |s'.tables| ensures HeldIn(s', id, h', w) { assert HeldIn(s, id, At(v), w); }
  }

  lemma HandleMigratedResult(s: State, v: nat, id: TxnId)
    requires SameSize(s) && Enabled(s, HandleMigrated(v, id)) && s.txns[id].commands != []
    ensures var s', cmd := Step(s, HandleMigrated(v, id)), s.txns[id].commands[0];
            && id in s'.txns && s'.txns[id] == AfterCommand(s.txns[id], v)
            && |s'.tables| == |s.tables|
            && Waits(s'.tables[v].migrated, id) == (if cmd.WaitForMessage? then id in s.tables[v].migrated
                                                    else if cmd.MigrateTo? || cmd.Complete? then false
                                                    else Waits(s.tables[v].migrated, id))
            && (cmd.MigrateTo? ==> s.sent in s'.inFlight && s'.inFlight[s.sent] == Migrant(id, v, cmd.target))
  {
  }

  lemma HandleMigratedFits(s: State, v: nat, id: TxnId, h: Holder)
    requires Inv(s) && Enabled(s, HandleMigrated(v, id)) && s.txns[id].commands != [] && Fits(s, id, h)
    ensures SameSize(Step(s, HandleMigrated(v, id))) && id in Step(s, HandleMigrated(v, id)).txns
    ensures Fits(Step(s, HandleMigrated(v, id)), id, NextHolder(s, h, s.txns[id].commands[0]))
  {
    var t, h' := s.txns[id], NextHolder(s, h, s.txns[id].commands[0]);
    assert HeldIn(s, id, h, v);
    AfterCommandFits(t, v);
    HandleMigratedHolds(s, v, id);
    HandleMigratedResult(s, v, id);
    NoLongerWaiting(t);
    NextHolderFits(s, h, t.handled, v, t.commands[0]);
    hide HeldOnlyBy, HistoryFits, ChannelsFit, Known, Step, AfterCommand, PendingIfMigrating, IsWaiting, AnswersFit, EndsFit;
    var s' := Step(s, HandleMigrated(v, id));
    assert HolderFits(s', id, s'.txns[id], h');
  }

  lemma HandleKeepsInv(s: State, e: Event)
    requires Inv(s) && Enabled(s, e) && (e.Handle? || e.HandleMigrated?)
    ensures Inv(Step(s, e))
  {
    var h :| Fits(s, e.id, h);
    if s.txns[e.id].commands == [] {
      EmptyHanded(s, e);
      UntouchedFits(s, Step(s, e), e.id, h);
      SubjectFits(s, e, h);
    } else {
      var h' := NextHolder(s, h, s.txns[e.id].commands[0]);
      if e.Handle? {
        HandleFits(s, e.node, e.id, h);
      } else {
        HandleMigratedFits(s, e.node, e.id, h);
      }
      SubjectFits(s, e, h');
    }
  }

  /** A manager that finds no command leaves the transaction alone. */
  lemma EmptyHanded(s: State, e: Event)
    requires SameSize(s) && Enabled(s, e) && (e.Handle? || e.HandleMigrated?) && s.txns[e.id].commands == []
    ensures Untouched(s, Step(s, e), e.id)
  {
  }

  lemma StepKeepsInv(s: State, e: Event)
    requires Inv(s) && Enabled(s, e)
    ensures Inv(Step(s, e))
  {
    hide Known, Fits, Step;
    match e
    case Start(v) =>
      StaysKnown(s, e);
      StartFits(s, v);
      SubjectFits(s, e, Home);
    case Issue(id, cmd) => IssueKeepsInv(s, id, cmd);
    case Receive(id) => ReceiveKeepsInv(s, id);
    case Exit(id) =>
      var h :| Fits(s, id, h);
      StaysKnown(s, e);
      ExitFits(s, id, h);
      SubjectFits(s, e, if h == Home then Left else h);
    case BeginRound(_) => RoundKeepsInv(s, e);
    case Handle(_, _) => HandleKeepsInv(s, e);
    case BeginMigratedRound(_) => RoundKeepsInv(s, e);
    case HandleMigrated(_, _) => HandleKeepsInv(s, e);
    case Deliver(r) =>
      var h :| Fits(s, s.inFlight[r].id, h);
      StaysKnown(s, e);
      DeliverFits(s, r, h);
      SubjectFits(s, e, At(s.inFlight[r].target));
    case Route(v, id) =>
      var h :| Fits(s, id, h);
      StaysKnown(s, e);
      RouteFits(s, v, id, h);
      SubjectFits(s, e, h);
  }

  // ------------------------------------------------------------------ whole runs

  ghost predicate IsRun(s: State, events: seq<Event>)
    decreases |events|
  {
    events == [] || (Enabled(s, events[0]) && IsRun(Step(s, events[0]), events[1..]))
  }

  ghost function EndOf(s: State, events: seq<Event>): State
    requires IsRun(s, events)
    decreases |events|
  {
    if events == [] then s else EndOf(Step(s, events[0]), events[1..])
  }

  lemma {:induction false} RunKeepsInv(s: State, events: seq<Event>)
    requires Inv(s) && IsRun(s, events)
    ensures Inv(EndOf(s, events))
    decreases |events|
  {
    hide Inv, Step;
    if events != [] {
      StepKeepsInv(s, events[0]);
      RunKeepsInv(Step(s, events[0]), events[1..]);
    }
  }

  lemma InitialInv(nodes: nat)
    ensures Inv(Initial(nodes))
  {
  }

  /** The places that can hold a transaction. */
  datatype Place = ActiveAt(node: nat) | MigratedAt(node: nat) | OnTheWay(request: nat)

  predicate HeldAt(s: State, id: TxnId, p: Place) {
    match p
    case ActiveAt(v) => v < |s.tables| && id in s.tables[v].active
    case MigratedAt(v) => v < |s.tables| && id in s.tables[v].migrated
    case OnTheWay(r) => r in s.inFlight && s.inFlight[r].id == id
  }

  /** Token passing. In every reachable state each transaction is in at most one place: its
      origin's active table, one node's migrated table, or one migration request, whatever
      the order in which requests are delivered and managers run. */
  lemma OnePlaceAtATime(nodes: nat, events: seq<Event>, id: TxnId, p: Place, q: Place)
    requires IsRun(Initial(nodes), events)
    requires HeldAt(EndOf(Initial(nodes), events), id, p) && HeldAt(EndOf(Initial(nodes), events), id, q)
    ensures p == q
    ensures p.ActiveAt? ==> p.node == id.node
  {
    InitialInv(nodes);
    RunKeepsInv(Initial(nodes), events);
    var s := EndOf(Initial(nodes), events);
    assert id in s.txns;
    var h :| Fits(s, id, h);
    PlaceOf(s, id, h, p);
    PlaceOf(s, id, h, q);
  }

  lemma PlaceOf(s: State, id: TxnId, h: Holder, p: Place)
    requires SameSize(s) && id in s.txns && Fits(s, id, h) && HeldAt(s, id, p)
    ensures match h
            case Home => p == ActiveAt(id.node)
            case At(v) => p == MigratedAt(v)
            case Travelling(r) => p == OnTheWay(r)
            case _ => false
  {
    if !p.OnTheWay? {
      assert HeldIn(s, id, h, p.node);
    }
  }

  /** Commands are handled once each, in the order in which they were issued, and each by the
      manager of the node whose context issued it; the rest wait, in order, in the channel. */
  lemma CommandsAreHandledInOrder(nodes: nat, events: seq<Event>, id: TxnId)
    requires IsRun(Initial(nodes), events) && id in EndOf(Initial(nodes), events).txns
    ensures var t := EndOf(Initial(nodes), events).txns[id];
            && t.handled <= t.issued
            && |t.issued| == |t.handled| + |t.commands|
            && forall j :: 0 <= j < |t.commands| ==> t.issued[|t.handled| + j] == (t.node, t.commands[j])
  {
    InitialInv(nodes);
    RunKeepsInv(Initial(nodes), events);
    var h :| Fits(EndOf(Initial(nodes), events), id, h);
  }

  /** A resume channel never holds more than one value, so no resume is ever dropped, and a
      value is there only for a goroutine that waits in Yield. */
  lemma ResumesAreNeverDropped(nodes: nat, events: seq<Event>, id: TxnId)
    requires IsRun(Initial(nodes), events) && id in EndOf(Initial(nodes), events).txns
    ensures var t := EndOf(Initial(nodes), events).txns[id];
            |t.resumes| <= 1 && (t.resumes != [] ==> t.point.Blocked? && t.commands == [])
  {
    InitialInv(nodes);
    RunKeepsInv(Initial(nodes), events);
    var h :| Fits(EndOf(Initial(nodes), events), id, h);
  }

  /** MigrateTo succeeds or waits: what it receives is the migration result of its target,
      which holds the transaction by then; and once its command has been handled, the
      request is on its way to the target or the result is waiting. */
  lemma MigrationIsNeverLost(nodes: nat, events: seq<Event>, id: TxnId)
    requires IsRun(Initial(nodes), events) && id in EndOf(Initial(nodes), events).txns
    ensures var s := EndOf(Initial(nodes), events);
            var t := s.txns[id];
            t.point.Blocked? && t.point.cmd.MigrateTo? ==>
              var d := t.point.cmd.target;
              && (t.resumes != [] ==> t.resumes == [Moved(d)] && HeldAt(s, id, MigratedAt(d)))
              && (t.commands == [] && t.resumes == [] ==>
                    exists r :: HeldAt(s, id, OnTheWay(r)) && s.inFlight[r].target == d)
  {
    InitialInv(nodes);
    RunKeepsInv(Initial(nodes), events);
    var s := EndOf(Initial(nodes), events);
    var t := s.txns[id];
    var h :| Fits(s, id, h);
    if t.point.Blocked? && t.point.cmd.MigrateTo? {
      match h
      case Travelling(r) => assert HeldAt(s, id, OnTheWay(r));
      case At(v) => assert HeldIn(s, id, h, v);
      case _ =>
    }
  }

  // ------------------------------------------------ what a blocked goroutine can rely on

  predicate WaitsSomewhere(s: State, id: TxnId) {
    exists v :: 0 <= v < |s.tables| && (Waits(s.tables[v].active, id) || Waits(s.tables[v].migrated, id))
  }

  /** Who is blocked is about to be answered. In every run a goroutine that is blocked in a
      command either has that command, the last one, still to be handled, and then nothing to
      receive; or it has its answer, the one that belongs to its command; or it is known to a
      manager as waiting for a message, or on its way to another node. */
  lemma BlockedIsAnswered(nodes: nat, events: seq<Event>, id: TxnId)
    requires IsRun(Initial(nodes), events) && id in EndOf(Initial(nodes), events).txns
    ensures var s := EndOf(Initial(nodes), events);
            var t := s.txns[id];
            && (WaitsSomewhere(s, id) <==> IsWaiting(t))
            && (t.point.Blocked? && t.commands != [] ==> t.resumes == [] && t.commands[|t.commands| - 1] == t.point.cmd)
            && (t.point.Blocked? && t.commands == [] ==>
                  match t.point.cmd
                  case SendAndWait => t.resumes == [Ack]
                  case WaitForMessage => t.resumes == (if WaitsSomewhere(s, id) then [] else [Reply])
                  case MigrateTo(d) =>
                    if t.resumes == [] then exists r :: HeldAt(s, id, OnTheWay(r)) && s.inFlight[r].target == d
                    else t.resumes == [Moved(d)] && HeldAt(s, id, MigratedAt(d))
                  case _ => false)
  {
    InitialInv(nodes);
    RunKeepsInv(Initial(nodes), events);
    MigrationIsNeverLost(nodes, events, id);
    var s := EndOf(Initial(nodes), events);
    var h :| Fits(s, id, h);
    WaitsWhereHeld(s, id, h);
  }

  lemma WaitsWhereHeld(s: State, id: TxnId, h: Holder)
    requires SameSize(s) && id in s.txns && Fits(s, id, h)
    ensures WaitsSomewhere(s, id) <==> IsWaiting(s.txns[id])
  {
    if v :| 0 <= v < |s.tables| && (Waits(s.tables[v].active, id) || Waits(s.tables[v].migrated, id)) {
      assert HeldIn(s, id, h, v);
    }
    if IsWaiting(s.txns[id]) {
      match h
      case Home => assert HeldIn(s, id, h, id.node) && Waits(s.tables[id.node].active, id);
      case At(v) => assert HeldIn(s, id, h, v) && Waits(s.tables[v].migrated, id);
      case _ => assert false;
    }
  }

  /** A message reaches whoever waits for it on the node, and changes nothing for anyone else. */
  lemma MessagesReachWaiters(nodes: nat, events: seq<Event>, v: nat, id: TxnId)
    requires IsRun(Initial(nodes), events) && Enabled(EndOf(Initial(nodes), events), Route(v, id))
    ensures var s := EndOf(Initial(nodes), events);
            var s' := Step(s, Route(v, id));
            if Waits(s.tables[v].active, id) || Waits(s.tables[v].migrated, id)
            then s'.txns[id] == s.txns[id].(resumes := [Reply]) && !WaitsSomewhere(s', id)
            else s' == s
  {
    InitialInv(nodes);
    RunKeepsInv(Initial(nodes), events);
    var s := EndOf(Initial(nodes), events);
    var s' := Step(s, Route(v, id));
    var h :| Fits(s, id, h);
    WaitsWhereHeld(s, id, h);
    RouteFits(s, v, id, h);
    WaitsWhereHeld(s', id, h);
    if Waits(s.tables[v].active, id) || Waits(s.tables[v].migrated, id) {
      assert WaitsSomewhere(s, id);
    }
  }

  /** A transaction is held until its end, and no longer: one that has never left its node until
      its function returns, and one that has been sent to another node, until a manager has
      taken its completion there. So one that returns away from home without completing
      is held for ever. */
  lemma HeldUntilItsEnd(nodes: nat, events: seq<Event>, id: TxnId)
    requires IsRun(Initial(nodes), events) && id in EndOf(Initial(nodes), events).txns
    ensures var s := EndOf(Initial(nodes), events);
            var t := s.txns[id];
            (exists p :: HeldAt(s, id, p)) <==> if SentOff(t.handled) then !CompletedAway(t.handled) else t.point != Exited
  {
    InitialInv(nodes);
    RunKeepsInv(Initial(nodes), events);
    var s := EndOf(Initial(nodes), events);
    var h :| Fits(s, id, h);
    assert CompletedAway(s.txns[id].handled) ==> SentOff(s.txns[id].handled);
    if p :| HeldAt(s, id, p) {
      PlaceOf(s, id, h, p);
    }
    match h
    case Home => assert HeldIn(s, id, h, id.node) && HeldAt(s, id, ActiveAt(id.node));
    case At(v) => assert HeldIn(s, id, h, v) && HeldAt(s, id, MigratedAt(v));
    case Travelling(r) => assert HeldAt(s, id, OnTheWay(r));
    case _ =>
  }

  /** A command is refused only while ten others wait to be handled. */
  lemma CommandsAreRefusedAtTen(nodes: nat, events: seq<Event>, id: TxnId, cmd: Command)
    requires IsRun(Initial(nodes), events) && Enabled(EndOf(Initial(nodes), events), Issue(id, cmd))
    ensures var s := EndOf(Initial(nodes), events);
            var t := s.txns[id];
            var t' := Step(s, Issue(id, cmd)).txns[id];
            t'.issued == if |t.issued| < |t.handled| + 10 then t.issued + [(t.node, cmd)] else t.issued
  {
    CommandsAreHandledInOrder(nodes, events, id);
  }

  /** The ids of one node are handed out one after the other: those started there are exactly
      the numbers from 1 up to the next one. */
  lemma {:induction false} IdsAreConsecutive(nodes: nat, events: seq<Event>, v: nat, n: nat)
    requires IsRun(Initial(nodes), events) && v < nodes
    ensures var s := EndOf(Initial(nodes), events);
            |s.tables| == nodes && (TxnId(v, n) in s.txns <==> 1 <= n < s.tables[v].nextTxnID)
  {
    InitialInv(nodes);
    KeepsIds(Initial(nodes), events, v, n);
  }

  lemma {:induction false} KeepsIds(s: State, events: seq<Event>, v: nat, n: nat)
    requires Inv(s) && IsRun(s, events) && v < |s.tables| && s.tables[v].nextTxnID >= 1
    requires TxnId(v, n) in s.txns <==> 1 <= n < s.tables[v].nextTxnID
    ensures var s' := EndOf(s, events);
            |s'.tables| == |s.tables| && (TxnId(v, n) in s'.txns <==> 1 <= n < s'.tables[v].nextTxnID)
    decreases |events|
  {
    if events != [] {
      StepKeepsInv(s, events[0]);
      StepKeepsIds(s, events[0], v, n);
      hide Step, Inv, Enabled;
      KeepsIds(Step(s, events[0]), events[1..], v, n);
    }
  }

  lemma StepKeepsIds(s: State, e: Event, v: nat, n: nat)
    requires SameSize(s) && Enabled(s, e) && v < |s.tables| && s.tables[v].nextTxnID >= 1
    requires TxnId(v, n) in s.txns <==> 1 <= n < s.tables[v].nextTxnID
    ensures var s' := Step(s, e);
            && |s'.tables| == |s.tables| && s'.tables[v].nextTxnID >= 1
            && (TxnId(v, n) in s'.txns <==> 1 <= n < s'.tables[v].nextTxnID)
  {
  }
}
