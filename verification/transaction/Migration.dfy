/** Transactions that migrate between nodes (internal/dataflow/transaction/manager.go,
    context.go): one manager per node, one goroutine per transaction, and migration requests
    that the network may deliver in any order. Each transaction is a token: one table or one
    request holds it. */
module Migration {
  import opened TxnManager

  /** Where the goroutine of a transaction is: running, blocked in Yield, or returned. */
  datatype Point = Running | Blocked(cmd: Command) | Exited

  /** `node` is the node of the current context. `issued` and `handled` are history: the
      commands with the node whose context issued, and whose manager handled, them. */
  datatype Txn = Txn(
    node: nat, point: Point, commands: seq<Command>, resumes: seq<Value>,
    issued: seq<(nat, Command)>, handled: seq<(nat, Command)>)

  /** `rounds` and `migratedRounds` hold what each manager has yet to look at in its tick;
      `inFlight` numbers migration requests in the order they were sent. */
  datatype State = State(
    tables: seq<Tables>, rounds: seq<set<TxnId>>, migratedRounds: seq<set<TxnId>>,
    inFlight: map<nat, Migrant>, sent: nat, txns: map<TxnId, Txn>)

  datatype Event =
    | Start(node: nat)
    | Issue(id: TxnId, cmd: Command)
    | Receive(id: TxnId)        // a blocked Yield takes its resume value
    | Exit(id: TxnId)           // the transaction function returns
    | BeginRound(node: nat)
    | Handle(node: nat, id: TxnId)
    | BeginMigratedRound(node: nat)
    | HandleMigrated(node: nat, id: TxnId)
    | Deliver(request: nat)
    | Route(node: nat, id: TxnId)

  function Initial(nodes: nat): State {
    State(seq(nodes, _ => Tables(map[], map[], 1)), seq(nodes, _ => {}), seq(nodes, _ => {}), map[], 0, map[])
  }

  /** Yield waits for a resume value; Send and Complete do not. */
  predicate Blocks(cmd: Command) {
    cmd.WaitForMessage? || cmd.SendAndWait? || cmd.MigrateTo?
  }

  predicate Enabled(s: State, e: Event) {
    match e
    case Start(v) => v < |s.tables|
    case Issue(id, _) => id in s.txns && s.txns[id].point == Running
    case Receive(id) => id in s.txns && s.txns[id].point.Blocked? && s.txns[id].resumes != []
    case Exit(id) => id in s.txns && s.txns[id].point == Running && id.node < |s.tables|
    case BeginRound(v) => v < |s.tables| && v < |s.rounds|
    case Handle(v, id) => v < |s.tables| && v < |s.rounds| && id in s.rounds[v] && id in s.txns
    case BeginMigratedRound(v) => v < |s.tables| && v < |s.migratedRounds|
    case HandleMigrated(v, id) => v < |s.tables| && v < |s.migratedRounds| && id in s.migratedRounds[v] && id in s.txns
    case Deliver(r) => r in s.inFlight && s.inFlight[r].target < |s.tables| && s.inFlight[r].id in s.txns
    case Route(v, id) => v < |s.tables| && id in s.txns
  }

  /** A command goes into the yield channel unless that is full, which is an error. */
  function Issued(t: Txn, cmd: Command): Txn {
    if |t.commands| >= CAPACITY then t
    else t.(commands := t.commands + [cmd], issued := t.issued + [(t.node, cmd)],
            point := if Blocks(cmd) then Blocked(cmd) else t.point)
  }

  /** MigrateTo goes on with a context of the target node if it gets a migration result. */
  function Received(t: Txn): Txn
    requires t.point.Blocked? && t.resumes != []
  {
    t.(resumes := t.resumes[1..], point := Running,
       node := if t.point.cmd.MigrateTo? && t.resumes[0].Moved? then t.point.cmd.target else t.node)
  }

  /** A manager takes the front command, if there is one. */
  function Taken(t: Txn, v: nat): Txn
    requires t.commands != []
  {
    t.(commands := t.commands[1..], handled := t.handled + [(v, t.commands[0])])
  }

  function Dispatch(s: State, v: nat, id: TxnId, out: (Tables, seq<Value>, Option<Migrant>)): State
    requires v < |s.tables| && id in s.txns && s.txns[id].commands != []
  {
    s.(tables := s.tables[v := out.0],
       txns := s.txns[id := Taken(s.txns[id], v).(resumes := out.1)],
       inFlight := if out.2.Some? then s.inFlight[s.sent := out.2.value] else s.inFlight,
       sent := if out.2.Some? then s.sent + 1 else s.sent)
  }

  function Step(s: State, e: Event): State
    requires Enabled(s, e)
  {
    match e
    case Start(v) =>
      var id := TxnId(v, s.tables[v].nextTxnID);
      s.(tables := s.tables[v := s.tables[v].(active := s.tables[v].active[id := false], nextTxnID := id.txn + 1)],
         txns := s.txns[id := Txn(v, Running, [], [], [], [])])
    case Issue(id, cmd) => s.(txns := s.txns[id := Issued(s.txns[id], cmd)])
    case Receive(id) => s.(txns := s.txns[id := Received(s.txns[id])])
    case Exit(id) =>
      s.(txns := s.txns[id := s.txns[id].(point := Exited)],
         tables := s.tables[id.node := s.tables[id.node].(active := s.tables[id.node].active - {id})])
    case BeginRound(v) => s.(rounds := s.rounds[v := s.tables[v].active.Keys])
    case Handle(v, id) =>
      var s' := s.(rounds := s.rounds[v := s.rounds[v] - {id}]);
      if s.txns[id].commands == [] then s'
      else Dispatch(s', v, id, HandleYield(s.tables[v], v, id, s.txns[id].commands[0], s.txns[id].resumes))
    case BeginMigratedRound(v) => s.(migratedRounds := s.migratedRounds[v := s.tables[v].migrated.Keys])
    case HandleMigrated(v, id) =>
      var s' := s.(migratedRounds := s.migratedRounds[v := s.migratedRounds[v] - {id}]);
      if s.txns[id].commands == [] then s'
      else Dispatch(s', v, id, HandleMigratedYield(s.tables[v], v, id, s.txns[id].commands[0], s.txns[id].resumes))
    case Deliver(r) =>
      var m := s.inFlight[r];
      var (tables, resumes) := HandleMigrationRequest(s.tables[m.target], m.target, m.id, s.txns[m.id].resumes);
      s.(inFlight := s.inFlight - {r}, tables := s.tables[m.target := tables],
         txns := s.txns[m.id := s.txns[m.id].(resumes := resumes)])
    case Route(v, id) =>
      var (tables, resumes) := RouteTo(s.tables[v], id, s.txns[id].resumes);
      s.(tables := s.tables[v := tables], txns := s.txns[id := s.txns[id].(resumes := resumes)])
  }

  // ------------------------------------------------------------------ the invariant

  /** Who holds a transaction: its origin's active table; nobody, since it returned there;
      a migrated table; a request; or nobody, since it completed away from home. */
  datatype Holder = Home | Left | At(node: nat) | Travelling(request: nat) | Done

  /** The tables of one node, as far as `id` is concerned. */
  ghost predicate HeldIn(s: State, id: TxnId, h: Holder, v: nat)
    requires v < |s.tables| && |s.rounds| == |s.migratedRounds| == |s.tables|
  {
    && (id in s.tables[v].active <==> h == Home && v == id.node)
    && (id in s.tables[v].migrated <==> h == At(v))
    && (id in s.rounds[v] ==> v == id.node && (h == Home || h == Left))
    && (id in s.migratedRounds[v] ==> h == At(v))
  }

  ghost predicate HeldOnlyBy(s: State, id: TxnId, h: Holder)
    requires |s.rounds| == |s.migratedRounds| == |s.tables|
  {
    && (forall v: nat :: v < |s.tables| ==> HeldIn(s, id, h, v))
    && (forall r :: r in s.inFlight ==> (s.inFlight[r].id == id <==> h == Travelling(r)))
    && (h.Travelling? ==> h.request in s.inFlight)
    && (h.At? ==> h.node < |s.tables|)
  }

  /** The commands, handled ones first, are those issued; the others were issued where the
      transaction is. */
  ghost predicate HistoryFits(t: Txn) {
    && |t.issued| == |t.handled| + |t.commands|
    && t.handled <= t.issued
    && forall j :: 0 <= j < |t.commands| ==> t.issued[|t.handled| + j] == (t.node, t.commands[j])
  }

  /** A blocking command is the last one, and the goroutine waits for it; a resume value is
      there only for a goroutine whose command has been handled. */
  ghost predicate ChannelsFit(t: Txn) {
    && (forall j :: 0 <= j < |t.commands| && Blocks(t.commands[j]) ==> j == |t.commands| - 1 && t.point == Blocked(t.commands[j]))
    && (t.point.Blocked? ==> Blocks(t.point.cmd))
    && |t.resumes| <= 1
    && (t.resumes != [] ==> t.point.Blocked? && t.commands == [])
  }

  /** What a blocked goroutine can find in its resume channel: nothing before its command, the
      last one, has been handled; then the value that answers the command, which is there at
      once after SendAndWait. */
  ghost predicate AnswersFit(t: Txn) {
    t.point.Blocked? ==>
      if t.commands != [] then t.resumes == [] && t.commands[|t.commands| - 1] == t.point.cmd
      else
        match t.point.cmd
        case SendAndWait => t.resumes == [Ack]
        case WaitForMessage => t.resumes == [] || t.resumes == [Reply]
        case _ => true
  }

  /** Some manager has sent the transaction to another node. */
  ghost predicate SentOff(handled: seq<(nat, Command)>) {
    exists i :: 0 <= i < |handled| && handled[i].1.MigrateTo?
  }

  /** And some manager has then taken its completion. */
  ghost predicate CompletedAway(handled: seq<(nat, Command)>) {
    exists i, j :: 0 <= i < j < |handled| && handled[i].1.MigrateTo? && handled[j].1.Complete?
  }

  ghost predicate EndsFit(handled: seq<(nat, Command)>, h: Holder) {
    match h
    case Home => !SentOff(handled)
    case Left => !SentOff(handled)
    case At(_) => SentOff(handled) && !CompletedAway(handled)
    case Travelling(_) => SentOff(handled) && !CompletedAway(handled)
    case Done => CompletedAway(handled)
  }

  lemma OneMoreHandled(handled: seq<(nat, Command)>, v: nat, cmd: Command)
    ensures SentOff(handled + [(v, cmd)]) <==> SentOff(handled) || cmd.MigrateTo?
    ensures CompletedAway(handled + [(v, cmd)]) <==> CompletedAway(handled) || (SentOff(handled) && cmd.Complete?)
  {
    var longer, n := handled + [(v, cmd)], |handled|;
    assert longer[n] == (v, cmd) && forall i :: 0 <= i < n ==> longer[i] == handled[i];
    if SentOff(handled) {
      var i :| 0 <= i < n && handled[i].1.MigrateTo?;
      assert longer[i].1.MigrateTo?;
    }
    if CompletedAway(handled) {
      var i, j :| 0 <= i < j < n && handled[i].1.MigrateTo? && handled[j].1.Complete?;
      assert longer[i].1.MigrateTo? && longer[j].1.Complete?;
    }
  }

  /** The transaction waits for a message and has not got it. */
  predicate IsWaiting(t: Txn) {
    t.point == Blocked(WaitForMessage) && t.commands == [] && t.resumes == []
  }

  /** A migration that no manager has handled yet: its command is the last one. */
  predicate PendingIfMigrating(t: Txn) {
    t.point.Blocked? && t.point.cmd.MigrateTo? ==>
      t.resumes == [] && t.commands != [] && t.commands[|t.commands| - 1] == t.point.cmd
  }

  ghost predicate HolderFits(s: State, id: TxnId, t: Txn, h: Holder)
    requires |s.rounds| == |s.migratedRounds| == |s.tables| && HeldOnlyBy(s, id, h)
  {
    match h
    case Home =>
      && t.node == id.node < |s.tables| && t.point != Exited && PendingIfMigrating(t)
      && (Waits(s.tables[id.node].active, id) <==> IsWaiting(t))
    case Left => t.node == id.node && t.point == Exited
    case At(v) =>
      && (Waits(s.tables[v].migrated, id) <==> IsWaiting(t))
      && ((t.node == v && PendingIfMigrating(t)) || JustDelivered(t, v))
    case Travelling(r) =>
      t.point == Blocked(MigrateTo(s.inFlight[r].target)) && t.commands == [] && t.resumes == []
    case Done => t.point.Blocked? ==> t.commands != []
  }

  /** The target has answered, and the goroutine has not gone on yet. */
  predicate JustDelivered(t: Txn, v: nat) {
    t.point == Blocked(MigrateTo(v)) && t.commands == [] && t.resumes == [Moved(v)]
  }

  ghost predicate Fits(s: State, id: TxnId, h: Holder)
    requires |s.rounds| == |s.migratedRounds| == |s.tables| && id in s.txns
  {
    match s.txns[id]
    case Txn(_, _, _, _, _, _) =>
      && HeldOnlyBy(s, id, h) && HistoryFits(s.txns[id]) && ChannelsFit(s.txns[id]) && AnswersFit(s.txns[id])
      && HolderFits(s, id, s.txns[id], h) && EndsFit(s.txns[id].handled, h)
  }

  ghost predicate TablesKnown(s: State) {
    forall v, id :: 0 <= v < |s.tables| && (id in s.tables[v].active || id in s.tables[v].migrated) ==> id in s.txns
  }

  ghost predicate RoundsKnown(s: State)
    requires |s.rounds| == |s.migratedRounds| == |s.tables|
  {
    forall v, id :: 0 <= v < |s.tables| && (id in s.rounds[v] || id in s.migratedRounds[v]) ==> id in s.txns
  }

  ghost predicate RequestsKnown(s: State) {
    forall r :: r in s.inFlight ==> s.inFlight[r].id in s.txns && r < s.sent
  }

  ghost predicate IdsUsedOnce(s: State) {
    forall id :: id in s.txns ==> id.node < |s.tables| && id.txn < s.tables[id.node].nextTxnID
  }

  /** Nothing is held that has not been started, and ids are used once. */
  ghost predicate Known(s: State)
    requires |s.rounds| == |s.migratedRounds| == |s.tables|
  {
    TablesKnown(s) && RoundsKnown(s) && RequestsKnown(s) && IdsUsedOnce(s)
  }

  ghost predicate Inv(s: State) {
    && |s.rounds| == |s.migratedRounds| == |s.tables|
    && Known(s)
    && forall id :: id in s.txns ==> exists h :: Fits(s, id, h)
  }

  /** A step that leaves everything about a transaction as it was. */
  ghost predicate Untouched(s: State, s': State, id: TxnId)
    requires |s.rounds| == |s.migratedRounds| == |s.tables| && id in s.txns
  {
    && |s'.rounds| == |s'.migratedRounds| == |s'.tables| == |s.tables|
    && id in s'.txns && s'.txns[id] == s.txns[id]
    && (forall v :: 0 <= v < |s.tables| ==>
          && (id in s'.tables[v].active <==> id in s.tables[v].active)
          && Waits(s'.tables[v].active, id) == Waits(s.tables[v].active, id)
          && (id in s'.tables[v].migrated <==> id in s.tables[v].migrated)
          && Waits(s'.tables[v].migrated, id) == Waits(s.tables[v].migrated, id)
          && (id in s'.rounds[v] ==> id in s.rounds[v] || id in s.tables[v].active)
          && (id in s'.migratedRounds[v] ==> id in s.migratedRounds[v] || id in s.tables[v].migrated))
    && (forall r :: r in s'.inFlight && s'.inFlight[r].id == id ==> r in s.inFlight)
    && (forall r :: r in s'.inFlight && r in s.inFlight ==> s.inFlight[r] == s'.inFlight[r])
    && (forall r :: r in s.inFlight && s.inFlight[r].id == id ==> r in s'.inFlight && s'.inFlight[r] == s.inFlight[r])
  }

  lemma UntouchedFits(s: State, s': State, id: TxnId, h: Holder)
    requires |s.rounds| == |s.migratedRounds| == |s.tables| && id in s.txns && Fits(s, id, h) && Untouched(s, s', id)
    ensures Fits(s', id, h)
  {
    forall v: nat | v < |s'.tables|
      ensures HeldIn(s', id, h, v)
    {
      assert HeldIn(s, id, h, v);
    }
  }
}
