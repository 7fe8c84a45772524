/** TxnManager (internal/dataflow/transaction/manager.go): the tables of one node's manager
    and what it does with a yield command, a migration request and a matching message.
    Payloads, operations and outgoing protocol messages play no part in who holds a
    transaction and are left out. */
module TxnManager {

  datatype TxnId = TxnId(node: nat, txn: nat)

  datatype Command =
    | WaitForMessage
    | SendOnly
    | SendAndWait
    | Complete
    | MigrateTo(target: nat)
    | Other  // any type the managers do not know

  /** What arrives in a resume channel: a message, nil, or a migration result. */
  datatype Value = Reply | Ack | Moved(node: nat)

  /** Capacity of the yield and resume channels. */
  const CAPACITY := 10

  /** A migration request on its way. */
  datatype Migrant = Migrant(id: TxnId, source: nat, target: nat)

  datatype Option<T> = None | Some(value: T)

  /** The two maps say of each transaction whether it waits for a message. */
  datatype Tables = Tables(active: map<TxnId, bool>, migrated: map<TxnId, bool>, nextTxnID: nat)

  predicate Waits(table: map<TxnId, bool>, id: TxnId) {
    id in table && table[id]
  }

  /** The non-blocking send of a resume value. */
  function Resume(channel: seq<Value>, v: Value): seq<Value> {
    if |channel| < CAPACITY then channel + [v] else channel
  }

  /** handleYieldCommand. The transaction may have left the table since the round began. */
  function HandleYield(t: Tables, node: nat, id: TxnId, cmd: Command, resumes: seq<Value>)
    : (Tables, seq<Value>, Option<Migrant>)
  {
    match cmd
    case MigrateTo(target) => (t.(active := t.active - {id}), resumes, Some(Migrant(id, node, target)))
    case WaitForMessage => (if id in t.active then t.(active := t.active[id := true]) else t, resumes, None)
    case SendAndWait => (t, Resume(resumes, Ack), None)
    case _ => (t, resumes, None)
  }

  /** handleMigratedYield and handleMigrationOut. */
  function HandleMigratedYield(t: Tables, node: nat, id: TxnId, cmd: Command, resumes: seq<Value>)
    : (Tables, seq<Value>, Option<Migrant>)
  {
    match cmd
    case MigrateTo(target) => (t.(migrated := t.migrated - {id}), resumes, Some(Migrant(id, node, target)))
    case WaitForMessage => (if id in t.migrated then t.(migrated := t.migrated[id := true]) else t, resumes, None)
    case Complete => (t.(migrated := t.migrated - {id}), resumes, None)
    case SendAndWait => (t, Resume(resumes, Ack), None)
    case _ => (t, resumes, None)
  }

  /** handleMigrationRequest on the target node. */
  function HandleMigrationRequest(t: Tables, node: nat, id: TxnId, resumes: seq<Value>): (Tables, seq<Value>) {
    (t.(migrated := t.migrated[id := false]), Resume(resumes, Moved(node)))
  }

  /** routeMessage, for one waiting transaction that the message matches. */
  function RouteTo(t: Tables, id: TxnId, resumes: seq<Value>): (Tables, seq<Value>) {
    if (!Waits(t.active, id) && !Waits(t.migrated, id)) || |resumes| >= CAPACITY then (t, resumes)
    else if Waits(t.active, id) then (t.(active := t.active[id := false]), resumes + [Reply])
    else (t.(migrated := t.migrated[id := false]), resumes + [Reply])
  }

  class TxnManager {
    const nodeID: nat
    var activeTxns: map<TxnId, bool>
    var migratedTxns: map<TxnId, bool>
    var nextTxnID: nat

    function State(): Tables
      reads this
    {
      Tables(activeTxns, migratedTxns, nextTxnID)
    }

    constructor (nodeID: nat)
      ensures this.nodeID == nodeID && State() == Tables(map[], map[], 1)
    {
      this.nodeID := nodeID;
      activeTxns, migratedTxns, nextTxnID := map[], map[], 1;
    }

    /** The bookkeeping of Start. */
    method Start() returns (id: TxnId)
      modifies this
      ensures id == TxnId(nodeID, old(nextTxnID))
      ensures State() == Tables(old(activeTxns)[id := false], old(migratedTxns), old(nextTxnID) + 1)
    {
      id := TxnId(nodeID, nextTxnID);
      nextTxnID := nextTxnID + 1;
      activeTxns := activeTxns[id := false];
    }

    method HandleYieldCommand(id: TxnId, cmd: Command, resumeCh: seq<Value>)
      returns (resumeCh': seq<Value>, outgoing: Option<Migrant>)
      modifies this
      ensures (State(), resumeCh', outgoing) == HandleYield(old(State()), nodeID, id, cmd, resumeCh)
    {
      resumeCh', outgoing := resumeCh, None;
      match cmd {
        case MigrateTo(target) =>
          outgoing := Some(Migrant(id, nodeID, target));
          activeTxns := activeTxns - {id};
        case WaitForMessage =>
          if id in activeTxns {
            activeTxns := activeTxns[id := true];
          }
        case SendAndWait =>
          if |resumeCh| < CAPACITY {
            resumeCh' := resumeCh + [Ack];
          }
        case _ =>
      }
    }

    method HandleMigratedYieldCommand(id: TxnId, cmd: Command, resumeCh: seq<Value>)
      returns (resumeCh': seq<Value>, outgoing: Option<Migrant>)
      modifies this
      ensures (State(), resumeCh', outgoing) == HandleMigratedYield(old(State()), nodeID, id, cmd, resumeCh)
    {
      resumeCh', outgoing := resumeCh, None;
      match cmd {
        case MigrateTo(target) =>
          outgoing := HandleMigrationOut(id, target);
        case WaitForMessage =>
          if id in migratedTxns {
            migratedTxns := migratedTxns[id := true];
          }
        case Complete =>
          migratedTxns := migratedTxns - {id};
        case SendAndWait =>
          if |resumeCh| < CAPACITY {
            resumeCh' := resumeCh + [Ack];
          }
        case _ =>
      }
    }

    method HandleMigrationOut(id: TxnId, target: nat) returns (outgoing: Option<Migrant>)
      modifies this
      ensures State() == old(State()).(migrated := old(migratedTxns) - {id})
      ensures outgoing == Some(Migrant(id, nodeID, target))
    {
      outgoing := Some(Migrant(id, nodeID, target));
      migratedTxns := migratedTxns - {id};
    }

    method HandleRequest(id: TxnId, resumeCh: seq<Value>) returns (resumeCh': seq<Value>)
      modifies this
      ensures (State(), resumeCh') == HandleMigrationRequest(old(State()), nodeID, id, resumeCh)
    {
      migratedTxns := migratedTxns[id := false];
      resumeCh' := resumeCh;
      if |resumeCh| < CAPACITY {
        resumeCh' := resumeCh + [Moved(nodeID)];
      }
    }
  }
}
