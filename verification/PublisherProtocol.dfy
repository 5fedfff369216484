/** The COMPLETE-last publisher and its read-only reconciler as a step system.
    Any number of both run against one bucket. A schedule is any sequence of steps; a
    step that is not enabled changes nothing, so every schedule is a run and every run
    is a schedule. Each client may fail or crash at every step. An upload whose success
    was not reported stays in flight: it may land once, several times, or never, and at
    any later moment. */
module PublisherProtocol {
  import opened Foundations
  import opened GroupRules

  /** Object keys of one bucket. The lease key has no destination prefix. */
  datatype Key =
    | LeaseKey(run: string)
    | MemberKey(prefix: seq<string>, run: string, member: Member)

  type Store = map<Key, Bytes>

  /** The snapshot check a client applies: Some(hash of the manifest) when it accepts. */
  type Check = (string, Files) -> Option<Digest>

  datatype Receipt = Receipt(run: string, complete: Digest, lease: Digest)

  /** The exit of a client; a client that dies has none. */
  datatype Outcome = Committed | Conflict | ProviderFailure | InternalFailure | CommitUnknown | Crashed

  /** What an operation raises: a refused conditional create, a provider error, or anything else. */
  datatype Fault = Refused | Provider | Internal

  datatype Status = Running | Stopped(outcome: Outcome)

  /** Where a publisher is; `i` indexes its upload order. */
  datatype Phase =
    | AtLease                // about to create the lease
    | AtProbe                // about to look for an existing COMPLETE
    | AtPut(i: nat)          // about to upload member i
    | AtStat(i: nat)         // member i acknowledged, about to compare its size
    | AtRead(i: nat)         // about to download member i and compare its hash
    | AtReceipt

  /** Where a reconciler is; `i` indexes the download order of the kind it found. */
  datatype Lookup =
    | StatLease
    | ReadLease(size: nat)
    | ProbeBusiness
    | ProbeLedger(business: bool)
    | StatMember(kind: Kind, i: nat)
    | ReadMember(kind: Kind, i: nat, size: nat)
    | WriteReceipt(kind: Kind)

  datatype Client =
    | Publisher(run: string, prefix: seq<string>, order: seq<Member>, files: Files, lease: Bytes, phase: Phase,
                status: Status)
    | Reconciler(run: string, prefix: seq<string>, leaseRead: Bytes, fetched: Files, lookup: Lookup, status: Status)

  /** `owner` records which publisher created the lease of a run; no step consults it. */
  datatype State = State(
    store: Store,
    flight: set<(Key, Bytes)>,
    clients: seq<Client>,
    receipts: set<Receipt>,
    owner: map<string, nat>)

  const INITIAL := State(map[], {}, [], {}, map[])

  datatype Step =
    | StartPublisher(run: string, prefix: seq<string>, files: Files, lease: Bytes)
    | StartReconciler(run: string, prefix: seq<string>)
    | Advance(id: nat)                               // its next operation is answered by the provider
    | Fail(id: nat, sent: bool, fault: Fault)        // it errors; `sent`: its effect was already on the way
    | Crash(id: nat, sent: bool)
    | Land(key: Key, content: Bytes)
    | Drop(key: Key, content: Bytes)

  // ----- one step -----

  /** A conditional create for leases, a plain overwrite for group members. */
  function PutObject(store: Store, key: Key, content: Bytes): Store {
    if key.LeaseKey? && key in store then store else store[key := content]
  }

  /** An index at which a publisher can work. */
  predicate CanHandle(c: Client, i: nat) {
    c.Publisher? && i < |c.order| && c.order[i] in c.files
  }

  function Target(c: Client, i: nat): Key
    requires CanHandle(c, i)
  {
    MemberKey(c.prefix, c.run, c.order[i])
  }

  function Local(c: Client, i: nat): Bytes
    requires CanHandle(c, i)
  {
    c.files[c.order[i]]
  }

  /** How a fault is reported where only the conditional create can be refused. */
  function Reported(fault: Fault): Outcome {
    if fault.Internal? then InternalFailure else ProviderFailure
  }

  /** What an error means: from the COMPLETE upload on, the commit is unknown. */
  function ErrorOutcome(c: Client, fault: Fault): Outcome {
    if c.Reconciler? then CommitUnknown
    else match c.phase
      case AtLease => if fault.Refused? then Conflict else Reported(fault)
      case AtProbe => Reported(fault)
      case AtPut(i) => if i + 1 < |c.order| then Reported(fault) else CommitUnknown
      case AtStat(i) => if i + 1 < |c.order| then Reported(fault) else CommitUnknown
      case AtRead(i) => if i + 1 < |c.order| then Reported(fault) else CommitUnknown
      case AtReceipt => CommitUnknown
  }

  /** What the comparison of an uploaded member raises: a missing object is none of the errors the
      publisher names, another content is a provider error. */
  function Mismatch(s: State, key: Key): Fault {
    if key in s.store then Provider else Internal
  }

  function Halt(c: Client, outcome: Outcome): Client {
    c.(status := Stopped(outcome))
  }

  function Update(s: State, id: nat, c: Client): State
    requires id < |s.clients|
  {
    s.(clients := s.clients[id := c])
  }

  function PublisherReceipt(check: Check, c: Client): Option<Receipt>
    requires c.Publisher?
  {
    match check(c.run, c.files)
    case Some(complete) => Some(Receipt(c.run, complete, Sha256(c.lease)))
    case None => None
  }

  function ReconcilerReceipt(check: Check, c: Client): Option<Receipt>
    requires c.Reconciler?
  {
    match check(c.run, c.fetched)
    case Some(complete) => if |c.leaseRead| == 32 then Some(Receipt(c.run, complete, Sha256(c.leaseRead))) else None
    case None => None
  }

  function Commit(s: State, id: nat, receipt: Option<Receipt>): State
    requires id < |s.clients|
  {
    match receipt
    case Some(r) => Update(s, id, Halt(s.clients[id], Committed)).(receipts := s.receipts + {r})
    case None => Update(s, id, Halt(s.clients[id], CommitUnknown))
  }

  function AdvancePublisher(check: Check, s: State, id: nat): State
    requires id < |s.clients| && s.clients[id].Publisher?
  {
    var c := s.clients[id];
    match c.phase
    case AtLease =>
      if LeaseKey(c.run) in s.store then Update(s, id, Halt(c, Conflict))
      else Update(s, id, c.(phase := AtProbe))
           .(store := s.store[LeaseKey(c.run) := c.lease], owner := s.owner[c.run := id])
    case AtProbe =>
      if MemberKey(c.prefix, c.run, Complete) in s.store then Update(s, id, Halt(c, Conflict))
      else Update(s, id, c.(phase := AtPut(0)))
    case AtPut(i) =>
      if !CanHandle(c, i) then s
      else Update(s, id, c.(phase := AtStat(i))).(store := s.store[Target(c, i) := Local(c, i)])
    case AtStat(i) =>
      if !CanHandle(c, i) then s
      else if Target(c, i) in s.store && |s.store[Target(c, i)]| == |Local(c, i)|
      then Update(s, id, c.(phase := AtRead(i)))
      else Update(s, id, Halt(c, ErrorOutcome(c, Mismatch(s, Target(c, i)))))
    case AtRead(i) =>
      if !CanHandle(c, i) then s
      else if Target(c, i) in s.store && Sha256(s.store[Target(c, i)]) == Sha256(Local(c, i)) then
        Update(s, id, c.(phase := if i + 1 < |c.order| then AtPut(i + 1) else AtReceipt))
      else Update(s, id, Halt(c, ErrorOutcome(c, Provider)))
    case AtReceipt => Commit(s, id, PublisherReceipt(check, c))
  }

  /** The next lookup once member i has been downloaded. */
  function AfterMember(kind: Kind, i: nat): Lookup {
    if i + 1 < |FetchOrder(kind)| then StatMember(kind, i + 1) else WriteReceipt(kind)
  }

  function AdvanceReconciler(check: Check, s: State, id: nat): State
    requires id < |s.clients| && s.clients[id].Reconciler?
  {
    var c := s.clients[id];
    var lost := Update(s, id, Halt(c, CommitUnknown));
    match c.lookup
    case StatLease =>
      if LeaseKey(c.run) in s.store
      then Update(s, id, c.(lookup := ReadLease(|s.store[LeaseKey(c.run)]|)))
      else lost
    case ReadLease(size) =>
      if LeaseKey(c.run) in s.store && |s.store[LeaseKey(c.run)]| == size
      then Update(s, id, c.(lookup := ProbeBusiness, leaseRead := s.store[LeaseKey(c.run)]))
      else lost
    case ProbeBusiness =>
      Update(s, id, c.(lookup := ProbeLedger(MemberKey(c.prefix, c.run, Manifest) in s.store)))
    case ProbeLedger(business) =>
      var ledger := MemberKey(c.prefix, c.run, LedgerManifest) in s.store;
      if business == ledger then lost
      else Update(s, id, c.(lookup := StatMember(if business then Business else Ledger, 0), fetched := map[]))
    case StatMember(kind, i) =>
      if i >= |FetchOrder(kind)| then s else
      var key := MemberKey(c.prefix, c.run, FetchOrder(kind)[i]);
      if key in s.store then Update(s, id, c.(lookup := ReadMember(kind, i, |s.store[key]|))) else lost
    case ReadMember(kind, i, size) =>
      if i >= |FetchOrder(kind)| then s else
      var name := FetchOrder(kind)[i];
      var key := MemberKey(c.prefix, c.run, name);
      if key in s.store && |s.store[key]| == size
      then Update(s, id, c.(lookup := AfterMember(kind, i), fetched := c.fetched[name := s.store[key]]))
      else lost
    case WriteReceipt(_) => Commit(s, id, ReconcilerReceipt(check, c))
  }

  /** The effect a client has already sent when its operation errors: the upload it was
      making, or the receipt it was writing. */
  function Send(check: Check, s: State, id: nat): State
    requires id < |s.clients|
  {
    var c := s.clients[id];
    if c.Publisher? then
      match c.phase
      case AtLease => s.(flight := s.flight + {(LeaseKey(c.run), c.lease)})
      case AtPut(i) => if CanHandle(c, i) then s.(flight := s.flight + {(Target(c, i), Local(c, i))}) else s
      case AtReceipt => WithReceipt(s, PublisherReceipt(check, c))
      case _ => s
    else if c.lookup.WriteReceipt? then WithReceipt(s, ReconcilerReceipt(check, c))
    else s
  }

  function WithReceipt(s: State, receipt: Option<Receipt>): State {
    match receipt
    case Some(r) => s.(receipts := s.receipts + {r})
    case None => s
  }

  predicate Live(s: State, id: nat) {
    id < |s.clients| && s.clients[id].status.Running?
  }

  /** The run id, the snapshot and the 32 random bytes are checked or made before the first request. */
  predicate MayStart(check: Check, run: string, files: Files, lease: Bytes) {
    ValidRunId(run) && KindOf(files.Keys).Some? && check(run, files).Some? && |lease| == 32
  }

  function Next(check: Check, s: State, step: Step): State {
    match step
    case StartPublisher(run, prefix, files, lease) =>
      if MayStart(check, run, files, lease) then
        var order := PutOrder(KindOf(files.Keys).value);
        s.(clients := s.clients + [Publisher(run, prefix, order, files, lease, AtLease, Running)])
      else s
    case StartReconciler(run, prefix) =>
      if ValidRunId(run) then s.(clients := s.clients + [Reconciler(run, prefix, [], map[], StatLease, Running)])
      else s
    case Advance(id) =>
      if !Live(s, id) then s
      else if s.clients[id].Publisher? then AdvancePublisher(check, s, id)
      else AdvanceReconciler(check, s, id)
    case Fail(id, sent, fault) =>
      if !Live(s, id) then s
      else Update(if sent then Send(check, s, id) else s, id, Halt(s.clients[id], ErrorOutcome(s.clients[id], fault)))
    case Crash(id, sent) =>
      if !Live(s, id) then s
      else Update(if sent then Send(check, s, id) else s, id, Halt(s.clients[id], Crashed))
    case Land(key, content) =>
      if (key, content) in s.flight then s.(store := PutObject(s.store, key, content)) else s
    case Drop(key, content) =>
      s.(flight := s.flight - {(key, content)})
  }

  /** The state after a schedule. */
  function Run(check: Check, s: State, steps: seq<Step>): State
    decreases |steps|
  {
    if steps == [] then s else Run(check, Next(check, s, steps[0]), steps[1..])
  }

  function Reach(check: Check, steps: seq<Step>): State {
    Run(check, INITIAL, steps)
  }

  lemma {:induction false} RunConcat(check: Check, s: State, a: seq<Step>, b: seq<Step>)
    ensures Run(check, s, a + b) == Run(check, Run(check, s, a), b)
    decreases |a|
  {
    if a == [] {
      assert a + b == b;
    } else {
      assert (a + b)[0] == a[0] && (a + b)[1..] == a[1..] + b;
      RunConcat(check, Next(check, s, a[0]), a[1..], b);
    }
  }
}
