/** The per-player signing store under the two ceremonies
    (det_signing_persistency in harness/cmp_ecdsa_online/src/fixtures.cpp), and
    service calls as programs that reach the store only through its interface. */
module SigningStore {
  import opened Sequences

  type Record = string
  type Store = map<string, Record>

  datatype Operation = Insert(record: Record) | Load | Update(record: Record) | Delete

  /** `Invalid` is the INVALID_TRANSACTION exception. */
  datatype Reply = Invalid | Done | Loaded(record: Record)

  /** The interface as a function of the store. */
  function Apply(m: Store, txid: string, op: Operation): (r: (Store, Reply))
  {
    match op
    case Insert(record) => if txid in m then (m, Invalid) else (m[txid := record], Done)
    case Load => if txid in m then (m, Loaded(m[txid])) else (m, Invalid)
    case Update(record) => if txid in m then (m[txid := record], Done) else (m, Invalid)
    case Delete => (m - {txid}, Done)
  }

  function Lookup(m: Store, txid: string): (r: Option<Record>)
  {
    if txid in m then Some(m[txid]) else None
  }

  class SigningPersistency {
    var metadata: Store
    var storeCalls: nat
    var updateCalls: nat
    var deleteCalls: nat

    constructor ()
      ensures metadata == map[] && storeCalls == updateCalls == deleteCalls == 0
    {
      metadata, storeCalls, updateCalls, deleteCalls := map[], 0, 0, 0;
    }

    /** Refuses a transaction that is already there; the call counts anyway. */
    method StoreSigningData(txid: string, data: Record) returns (reply: Reply)
      modifies this
      ensures (metadata, reply) == Apply(old(metadata), txid, Insert(data))
      ensures storeCalls == old(storeCalls) + 1
      ensures updateCalls == old(updateCalls) && deleteCalls == old(deleteCalls)
      ensures forall other :: other != txid ==> Lookup(metadata, other) == Lookup(old(metadata), other)
    {
      storeCalls := storeCalls + 1;
      if txid in metadata { return Invalid; }
      metadata := metadata[txid := data];
      reply := Done;
    }

    method LoadSigningData(txid: string) returns (reply: Reply)
      ensures (metadata, reply) == Apply(metadata, txid, Load)
    {
      if txid !in metadata { return Invalid; }
      reply := Loaded(metadata[txid]);
    }

    method UpdateSigningData(txid: string, data: Record) returns (reply: Reply)
      modifies this
      ensures (metadata, reply) == Apply(old(metadata), txid, Update(data))
      ensures updateCalls == old(updateCalls) + 1
      ensures storeCalls == old(storeCalls) && deleteCalls == old(deleteCalls)
      ensures forall other :: other != txid ==> Lookup(metadata, other) == Lookup(old(metadata), other)
    {
      updateCalls := updateCalls + 1;
      if txid !in metadata { return Invalid; }
      metadata := metadata[txid := data];
      reply := Done;
    }

    /** Never throws, also when there is nothing to delete. */
    method DeleteTemporarySigningData(txid: string) returns (reply: Reply)
      modifies this
      ensures (metadata, reply) == Apply(old(metadata), txid, Delete)
      ensures deleteCalls == old(deleteCalls) + 1
      ensures storeCalls == old(storeCalls) && updateCalls == old(updateCalls)
      ensures forall other :: other != txid ==> Lookup(metadata, other) == Lookup(old(metadata), other)
    {
      deleteCalls := deleteCalls + 1;
      metadata := metadata - {txid};
      reply := Done;
    }

    /** Absence is told apart from every digest. */
    method DigestForTxid(digest: (string, Record) -> string, txid: string) returns (d: Option<string>)
      ensures d == Digest(digest, Lookup(metadata, txid), txid)
    {
      if txid !in metadata { return None; }
      d := Some(digest(txid, metadata[txid]));
    }
  }

  function Digest(digest: (string, Record) -> string, r: Option<Record>, txid: string): (d: Option<string>)
  {
    match r
    case None => None
    case Some(record) => Some(digest(txid, record))
  }

  /** The interface by what can be looked up afterwards: an insertion succeeds
      exactly on an absent transaction, a load and an update exactly on a present
      one, a deletion always; a refusal changes nothing. */
  lemma StoreLaws(m: Store, txid: string, record: Record)
    ensures var (n, reply) := Apply(m, txid, Insert(record));
      if Lookup(m, txid).None? then reply == Done && Lookup(n, txid) == Some(record) else reply == Invalid && n == m
    ensures var (n, reply) := Apply(m, txid, Update(record));
      if Lookup(m, txid).Some? then reply == Done && Lookup(n, txid) == Some(record) else reply == Invalid && n == m
    ensures var (n, reply) := Apply(m, txid, Load);
      n == m && reply == if Lookup(m, txid).Some? then Loaded(Lookup(m, txid).value) else Invalid
    ensures var (n, reply) := Apply(m, txid, Delete);
      reply == Done && Lookup(n, txid).None?
  {
  }

  // ----- calls that use the store through its interface -----

  /** A service call: at most `limit` store operations on its own transaction,
      each chosen from the replies so far, and a result computed from them. */
  datatype Call<!R> = Call(limit: nat, next: seq<Reply> -> Option<Operation>, result: seq<Reply> -> R)

  function Perform<R>(call: Call<R>, txid: string, m: Store, replies: seq<Reply>): (r: (R, Store))
    requires |replies| <= call.limit
    decreases call.limit - |replies|
  {
    var op := call.next(replies);
    if |replies| == call.limit || op.None? then (call.result(replies), m)
    else
      var (m', reply) := Apply(m, txid, op.value);
      Perform(call, txid, m', replies + [reply])
  }

  lemma ApplyLocal(m: Store, n: Store, txid: string, op: Operation)
    requires Lookup(m, txid) == Lookup(n, txid)
    ensures Apply(m, txid, op).1 == Apply(n, txid, op).1
    ensures Lookup(Apply(m, txid, op).0, txid) == Lookup(Apply(n, txid, op).0, txid)
    ensures forall other :: other != txid ==> Lookup(Apply(m, txid, op).0, other) == Lookup(m, other)
  {
  }

  /** Such a call depends on and writes only the record of its transaction. */
  lemma {:induction false} PerformLocal<R>(call: Call<R>, txid: string, m: Store, n: Store, replies: seq<Reply>)
    requires |replies| <= call.limit && Lookup(m, txid) == Lookup(n, txid)
    ensures Perform(call, txid, m, replies).0 == Perform(call, txid, n, replies).0
    ensures Lookup(Perform(call, txid, m, replies).1, txid) == Lookup(Perform(call, txid, n, replies).1, txid)
    ensures forall other :: other != txid ==> Lookup(Perform(call, txid, m, replies).1, other) == Lookup(m, other)
    decreases call.limit - |replies|
  {
    var op := call.next(replies);
    if |replies| < call.limit && op.Some? {
      ApplyLocal(m, n, txid, op.value);
      var (m', reply) := Apply(m, txid, op.value);
      PerformLocal(call, txid, m', Apply(n, txid, op.value).0, replies + [reply]);
    }
  }
}
