/**
  Local durable storage of one key: any number of clients, in any number of processes, reading and
  comparing-and-exchanging under a file lock, over a file system that can lose power at any moment.

  A rename is visible at once, but survives a power loss only after a directory sync (by a client or
  by the file system on its own); file contents survive only if the file was synced.
 */
module DurableStore {
  import opened Common
  import opened DurableCodec

  datatype File = File(data: seq<Byte>, synced: bool)

  /** The directory entry of the key, as processes see it and as the disk holds it. */
  datatype Disk = Disk(visible: Option<File>, onDisk: Option<File>)

  datatype Operation = Read | CompareExchange(expected: Option<nat>, payload: seq<Byte>)

  datatype Outcome =
    | Found(value: Option<DurableValue>)
    | Applied(applied: DurableValue)
    | Conflict(current: Option<DurableValue>)
    | Failed

  /** How far one client is in its current call. */
  datatype Client =
    | Idle
    | Waiting(op: Operation)
    | Holding(op: Operation)
    | Loaded(op: Operation, current: Option<DurableValue>)
    | Creating(value: DurableValue)
    | Writing(value: DurableValue, temporary: File)
    | Renaming(value: DurableValue, temporary: File)
    | SyncingDirectory(value: DurableValue)
    | Releasing(outcome: Outcome)

  /** What happened: the values installed and not lost since, how many of them the disk holds, the
      values reported as applied, and, since the last directory sync, the renames and how many of their
      calls were abandoned before syncing the directory themselves. */
  datatype Ledger = Ledger(
    timeline: seq<DurableValue>,
    durable: nat,
    acked: seq<DurableValue>,
    unsynced: nat,
    abandoned: nat)

  datatype State = State(disk: Disk, lock: Option<nat>, clients: seq<Client>, ledger: Ledger)

  datatype Step =
    | Start(client: nat, op: Operation)
    | Acquire(client: nat)
    | Load(client: nat)
    | Decide(client: nat)
    | Create(client: nat)
    | Write(client: nat, upTo: nat)
    | SyncFile(client: nat)
    | Rename(client: nat)
    | SyncDirectory(client: nat)
    | Release(client: nat)
    | Fail(client: nat)
    | Die(client: nat)
    | FlushDirectory
    | PowerLoss(garbage: seq<Byte>)

  function Last(values: seq<DurableValue>): Option<DurableValue> {
    if values == [] then None else Some(values[|values| - 1])
  }

  function RevisionOf(value: Option<DurableValue>): Option<nat> {
    if value.Some? then Some(value.value.revision) else None
  }

  /** The file that holds a value completely and safely. */
  function FileOf(value: Option<DurableValue>, checksum: Checksum): Option<File> {
    if value.Some? then Some(File(Encode(value.value, checksum), true)) else None
  }

  /** `read_file`; a file beyond the address space cannot be read at all. */
  function ReadFile(file: Option<File>, checksum: Checksum): Result<Option<DurableValue>, DecodeError> {
    if file.None? then Ok(None)
    else if |file.value.data| > U64_MAX then Err(InvalidLength)
    else
      var decoded := Decode(file.value.data, checksum);
      if decoded.Ok? then Ok(Some(decoded.value)) else Err(decoded.error)
  }

  /** The decision `compare_exchange` takes after reading: answer at once, or install a value. */
  function Decision(expected: Option<nat>, payload: seq<Byte>, current: Option<DurableValue>): Client {
    if RevisionOf(current) != expected then Releasing(Conflict(current))
    else if expected.None? then Creating(DurableValue(0, payload))
    else if expected.value == U64_MAX then Releasing(Failed)
    else Creating(DurableValue(expected.value + 1, payload))
  }

  predicate InCritical(client: Client) {
    !client.Idle? && !client.Waiting?
  }

  predicate Fits(op: Operation) {
    op.CompareExchange? ==>
      HEADER + |op.payload| + CHECKSUM_BYTES <= U64_MAX && (op.expected.Some? ==> op.expected.value <= U64_MAX)
  }

  function Survivor(file: Option<File>, garbage: seq<Byte>): Option<File> {
    if file.Some? && !file.value.synced then Some(File(garbage, true)) else file
  }

  function Init(clients: nat): State {
    State(Disk(None, None), None, seq(clients, _ => Idle), Ledger([], 0, [], 0, 0))
  }

  ghost predicate Enabled(s: State, step: Step, checksum: Checksum) {
    match step
    case FlushDirectory => true
    case PowerLoss(_) => true
    case _ =>
      step.client < |s.clients| &&
      var client := s.clients[step.client];
      match step
      case Start(_, op) => client.Idle? && Fits(op)
      case Acquire(_) => client.Waiting? && s.lock.None?
      case Load(_) => client.Holding?
      case Decide(_) => client.Loaded?
      case Create(_) => client.Creating?
      case Write(_, upTo) =>
        client.Writing? && |client.temporary.data| < upTo <= |Encode(client.value, checksum)|
      case SyncFile(_) => client.Writing? && client.temporary.data == Encode(client.value, checksum)
      case Rename(_) => client.Renaming?
      case SyncDirectory(_) => client.SyncingDirectory?
      case Release(_) => client.Releasing?
      case Fail(_) => !client.Idle?
      case Die(_) => true
  }

  /** What the client becomes by its own step; a failing call still releases the lock first. */
  function NextClient(client: Client, step: Step, visible: Option<File>, checksum: Checksum): Client {
    match step
    case Start(_, op) => Waiting(op)
    case Acquire(_) => if client.Waiting? then Holding(client.op) else client
    case Load(_) =>
      var read := ReadFile(visible, checksum);
      if !client.Holding? then client
      else if read.Err? then Releasing(Failed)
      else if client.op.Read? then Releasing(Found(read.value))
      else Loaded(client.op, read.value)
    case Decide(_) =>
      if client.Loaded? && client.op.CompareExchange? then Decision(client.op.expected, client.op.payload, client.current)
      else client
    case Create(_) => if client.Creating? then Writing(client.value, File([], false)) else client
    case Write(_, upTo) =>
      if client.Writing? && upTo <= |Encode(client.value, checksum)|
      then Writing(client.value, File(Encode(client.value, checksum)[..upTo], false))
      else client
    case SyncFile(_) =>
      if client.Writing? then Renaming(client.value, client.temporary.(synced := true)) else client
    case Rename(_) => if client.Renaming? then SyncingDirectory(client.value) else client
    case SyncDirectory(_) => if client.SyncingDirectory? then Releasing(Applied(client.value)) else client
    case Release(_) => Idle
    case Fail(_) => if client.Waiting? || client.Releasing? then Idle else Releasing(Failed)
    case Die(_) => Idle
    case _ => client
  }

  function NextLock(lock: Option<nat>, client: Client, step: Step): Option<nat> {
    match step
    case Acquire(c) => Some(c)
    case Release(_) => None
    case Fail(_) => if client.Releasing? then None else lock
    case Die(_) => if InCritical(client) then None else lock
    case _ => lock
  }

  function NextDisk(disk: Disk, client: Client, step: Step): Disk {
    match step
    case Rename(_) => if client.Renaming? then disk.(visible := Some(client.temporary)) else disk
    case SyncDirectory(_) => disk.(onDisk := disk.visible)
    case _ => disk
  }

  /** The directory reaches the disk. */
  function Synced(ledger: Ledger): Ledger {
    ledger.(durable := |ledger.timeline|, unsynced := 0, abandoned := 0)
  }

  function NextLedger(ledger: Ledger, client: Client, step: Step): Ledger {
    match step
    case Rename(_) =>
      if client.Renaming?
      then ledger.(timeline := ledger.timeline + [client.value], unsynced := ledger.unsynced + 1)
      else ledger
    case SyncDirectory(_) => Synced(ledger)
    case Release(_) =>
      if client.Releasing? && client.outcome.Applied? then ledger.(acked := ledger.acked + [client.outcome.applied])
      else ledger
    case Fail(_) => if client.SyncingDirectory? then ledger.(abandoned := ledger.abandoned + 1) else ledger
    case Die(_) => if client.SyncingDirectory? then ledger.(abandoned := ledger.abandoned + 1) else ledger
    case _ => ledger
  }

  /** Power returns: processes are gone, and the directory is what the disk holds. */
  function AfterPowerLoss(s: State, garbage: seq<Byte>): State {
    var survivor := Survivor(s.disk.onDisk, garbage);
    State(Disk(survivor, survivor), None, seq(|s.clients|, _ => Idle),
          s.ledger.(timeline := if s.ledger.durable <= |s.ledger.timeline| then s.ledger.timeline[..s.ledger.durable] else [],
                    unsynced := 0, abandoned := 0))
  }

  function Next(s: State, step: Step, checksum: Checksum): State {
    match step
    case FlushDirectory =>
      s.(disk := s.disk.(onDisk := s.disk.visible), ledger := Synced(s.ledger))
    case PowerLoss(garbage) => AfterPowerLoss(s, garbage)
    case _ =>
      if step.client >= |s.clients| then s
      else
        var client := s.clients[step.client];
        State(NextDisk(s.disk, client, step), NextLock(s.lock, client, step),
              s.clients[step.client := NextClient(client, step, s.disk.visible, checksum)],
              NextLedger(s.ledger, client, step))
  }

  /** A run: every state is reached from the one before by an enabled step. */
  ghost predicate IsRun(trace: seq<State>, steps: seq<Step>, checksum: Checksum) {
    && |trace| == |steps| + 1
    && (exists clients: nat :: trace[0] == Init(clients))
    && (forall i :: 0 <= i < |steps| ==>
          Enabled(trace[i], steps[i], checksum) && trace[i + 1] == Next(trace[i], steps[i], checksum))
  }
}
