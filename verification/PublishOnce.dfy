/**
 The owner signer's publish-once protocol (owner_gateway/john_lomein_release_owner_signer.py,
 persist_signing_record): any number of processes race through reading the record, writing a
 temporary file, linking it under the record's name and unlinking the temporary name.

 A step is one system call of one process; a process may crash, or a call may fail, at any of them.
 A returned `fsync` or `link` is durable.  Directory permissions are outside the model.
 */
module PublishOnce {
  import opened Outcomes

  const MAX_RECORD_BYTES := 4 * 1024 * 1024
  const READ_CHUNK := 64 * 1024

  /** What _logical_request_digest commits to. */
  datatype Logical = Logical(configDigest: string, sourceEvent: string, bundle: string, approvalDigest: string)

  /** A verified signing record: its event, its logical request, and what differs from mint to mint. */
  datatype SigningRecord = SigningRecord(eventId: string, logical: Logical, createdAt: int, salt: string, assertion: string)

  type Bytes = seq<bv8>

  /** Canonical JSON as a parameter; `Sound` is all that is assumed of it. */
  datatype Codec = Codec(encode: SigningRecord -> Bytes, decode: Bytes -> Option<SigningRecord>)
  {
    ghost predicate Sound() {
      forall record :: encode(record) != [] && decode(encode(record)) == Some(record)
    }
  }

  // ----- the records directory -----------------------------------------------------------------

  datatype Name = RecordName(eventId: string) | TempName(eventId: string, token: string)

  datatype Inode = Inode(content: Bytes, links: nat)

  datatype Directory = Directory(names: map<Name, nat>, inodes: seq<Inode>)

  /** The file behind an inode number; a number never handed out has no content and no name. */
  function FileAt(dir: Directory, inode: nat): Inode {
    if inode < |dir.inodes| then dir.inodes[inode] else Inode([], 0)
  }

  function SetFile(dir: Directory, inode: nat, file: Inode): Directory {
    if inode < |dir.inodes| then dir.(inodes := dir.inodes[inode := file]) else dir
  }

  function CreateFile(dir: Directory, name: Name): Directory {
    Directory(dir.names[name := |dir.inodes|], dir.inodes + [Inode([], 1)])
  }

  function AppendTo(dir: Directory, inode: nat, bytes: Bytes): Directory {
    SetFile(dir, inode, FileAt(dir, inode).(content := FileAt(dir, inode).content + bytes))
  }

  function LinkAs(dir: Directory, name: Name, inode: nat): Directory {
    SetFile(dir, inode, FileAt(dir, inode).(links := FileAt(dir, inode).links + 1)).(names := dir.names[name := inode])
  }

  /** Removing a name that is already gone is not an error. */
  function Unlink(dir: Directory, name: Name): Directory {
    if name !in dir.names || FileAt(dir, dir.names[name]).links == 0 then dir
    else
      var inode := dir.names[name];
      SetFile(dir, inode, FileAt(dir, inode).(links := FileAt(dir, inode).links - 1)).(names := dir.names - {name})
  }

  // ----- processes -----------------------------------------------------------------------------

  datatype Call = Call(record: SigningRecord, token: string)
  {
    function Target(): Name { RecordName(record.eventId) }
    function Temp(): Name { TempName(record.eventId, token) }
  }

  /** What the unlinking of the temporary name leads to. */
  datatype Ending = Published | Found(record: SigningRecord) | Raising

  /** A process by the system call it is about to make; `raced` tells the second reading, after a lost link, from the first. */
  datatype Process =
    | Opening(call: Call, raced: bool)
    | Checking(call: Call, raced: bool, inode: nat)
    | Reading(call: Call, raced: bool, inode: nat, raw: Bytes)
    | Creating(call: Call)
    | Writing(call: Call, inode: nat, view: Bytes)
    | Linking(call: Call, inode: nat)
    | Unlinking(call: Call, ending: Ending)
    | SyncingDirectory(call: Call)
    | Returned(call: Call, record: SigningRecord)
    | Gone(call: Call)

  datatype State = State(dir: Directory, processes: map<nat, Process>)

  /** The environment's choice for a step: a new call, how a system call goes, or a crash. */
  datatype Move =
    | Arrive(record: SigningRecord, token: string)
    | Proceed(amount: nat)
    | FailCall
    | Crash

  datatype Input = Input(pid: nat, move: Move)

  const EMPTY := State(Directory(map[], []), map[])

  /** Leaving by an exception; after a lost link the temporary name is unlinked first. */
  function Raise(call: Call, raced: bool): Process {
    if raced then Unlinking(call, Raising) else Gone(call)
  }

  /** What was read of an existing record: returned if it verifies and answers the same logical request. */
  function Accept(codec: Codec, call: Call, raced: bool, raw: Bytes): Process {
    if |raw| > MAX_RECORD_BYTES then Raise(call, raced)
    else match codec.decode(raw)
      case None => Raise(call, raced)
      case Some(record) =>
        if record.logical != call.record.logical then Raise(call, raced)
        else if raced then Unlinking(call, Found(record))
        else Returned(call, record)
  }

  function Min(a: nat, b: nat): nat {
    if a <= b then a else b
  }

  /** How many bytes the next read of an existing record asks for. */
  function Wanted(raw: Bytes): nat {
    if |raw| <= MAX_RECORD_BYTES then Min(READ_CHUNK, MAX_RECORD_BYTES + 1 - |raw|) else 0
  }

  /** One read: at least one byte while some are left and wanted, possibly fewer than wanted. */
  function ReadStep(codec: Codec, call: Call, raced: bool, inode: nat, raw: Bytes, content: Bytes, amount: nat): Process {
    if |raw| >= |content| || Wanted(raw) == 0 then Accept(codec, call, raced, raw)
    else
      var size := Min(1 + amount, Min(Wanted(raw), |content| - |raw|));
      Reading(call, raced, inode, raw + content[|raw|..|raw| + size])
  }

  /** One system call that succeeds; `amount` is how much a read or write moves. */
  function Perform(codec: Codec, dir: Directory, process: Process, amount: nat): (Directory, Process) {
    match process
    case Opening(call, raced) =>
      if call.Target() in dir.names then (dir, Checking(call, raced, dir.names[call.Target()]))
      else (dir, if raced then Unlinking(call, Raising) else Creating(call))
    case Checking(call, raced, inode) =>
      if FileAt(dir, inode).links == 1 && 1 <= |FileAt(dir, inode).content| <= MAX_RECORD_BYTES
      then (dir, Reading(call, raced, inode, []))
      else (dir, Raise(call, raced))
    case Reading(call, raced, inode, raw) => (dir, ReadStep(codec, call, raced, inode, raw, FileAt(dir, inode).content, amount))
    case Creating(call) =>
      if call.Temp() in dir.names then (dir, Gone(call))
      else (CreateFile(dir, call.Temp()), Writing(call, |dir.inodes|, codec.encode(call.record)))
    case Writing(call, inode, view) =>
      var written := Min(amount, |view|);
      if view == [] then (dir, Linking(call, inode))
      else if written == 0 then (dir, Gone(call))
      else (AppendTo(dir, inode, view[..written]), Writing(call, inode, view[written..]))
    case Linking(call, inode) =>
      if call.Target() in dir.names then (dir, Opening(call, true))
      else (LinkAs(dir, call.Target(), inode), Unlinking(call, Published))
    case Unlinking(call, ending) =>
      (Unlink(dir, call.Temp()),
       match ending
       case Published => SyncingDirectory(call)
       case Found(record) => Returned(call, record)
       case Raising => Gone(call))
    case SyncingDirectory(call) => (dir, Returned(call, call.record))
    case Returned(_, _) => (dir, process)
    case Gone(_) => (dir, process)
  }

  /** A system call that fails: the exception escapes, through the unlinking where the temporary name is protected by it. */
  function Fail(process: Process): Process {
    match process
    case Opening(call, raced) => Raise(call, raced)
    case Checking(call, raced, _) => Raise(call, raced)
    case Reading(call, raced, _, _) => Raise(call, raced)
    case Linking(call, _) => Unlinking(call, Raising)
    case Returned(_, _) => process
    case _ => Gone(process.call)
  }

  function Next(codec: Codec, s: State, input: Input): State {
    match input.move
    case Arrive(record, token) =>
      if input.pid in s.processes then s
      else s.(processes := s.processes[input.pid := Opening(Call(record, token), false)])
    case Proceed(amount) =>
      if input.pid !in s.processes then s
      else
        var (dir, process) := Perform(codec, s.dir, s.processes[input.pid], amount);
        State(dir, s.processes[input.pid := process])
    case FailCall =>
      if input.pid !in s.processes then s
      else s.(processes := s.processes[input.pid := Fail(s.processes[input.pid])])
    case Crash =>
      if input.pid !in s.processes || s.processes[input.pid].Returned? then s
      else s.(processes := s.processes[input.pid := Gone(s.processes[input.pid].call)])
  }

  function Exec(codec: Codec, inputs: seq<Input>): State {
    if inputs == [] then EMPTY
    else Next(codec, Exec(codec, inputs[..|inputs| - 1]), inputs[|inputs| - 1])
  }

  // ----- the invariant -------------------------------------------------------------------------

  function ContentOf(dir: Directory, name: Name): Bytes
    requires name in dir.names
  {
    FileAt(dir, dir.names[name]).content
  }

  /** The record's name exists and its file holds exactly this record. */
  predicate Holds(codec: Codec, dir: Directory, eventId: string, record: SigningRecord) {
    && RecordName(eventId) in dir.names
    && ContentOf(dir, RecordName(eventId)) == codec.encode(record)
    && record.eventId == eventId
  }

  predicate IsWhole(codec: Codec, content: Bytes, eventId: string) {
    var decoded := codec.decode(content);
    decoded.Some? && codec.encode(decoded.value) == content && decoded.value.eventId == eventId
  }

  function NamesOf(dir: Directory, inode: nat): set<Name> {
    set name | name in dir.names && dir.names[name] == inode
  }

  predicate DirectoryOk(codec: Codec, dir: Directory) {
    && (forall name | name in dir.names :: dir.names[name] < |dir.inodes|)
    && (forall name | name in dir.names && name.RecordName? :: IsWhole(codec, ContentOf(dir, name), name.eventId))
    && (forall inode | 0 <= inode < |dir.inodes| :: dir.inodes[inode].links == |NamesOf(dir, inode)|)
  }

  /** The process has created its temporary name and not yet unlinked it. */
  predicate Owns(process: Process) {
    match process
    case Opening(_, raced) => raced
    case Checking(_, raced, _) => raced
    case Reading(_, raced, _, _) => raced
    case Writing(_, _, _) => true
    case Linking(_, _) => true
    case Unlinking(_, _) => true
    case _ => false
  }

  /** The temporary file of a process that has not linked it: no other name reaches it. */
  predicate Private(dir: Directory, call: Call, inode: nat) {
    && call.Temp() in dir.names && dir.names[call.Temp()] == inode
    && forall name | name in dir.names :: dir.names[name] == inode ==> name == call.Temp()
  }

  predicate ProcessOk(codec: Codec, dir: Directory, process: Process) {
    && (Owns(process) ==> process.call.Temp() in dir.names)
    && match process
       case Opening(call, raced) => raced ==> call.Target() in dir.names
       case Checking(call, _, inode) => call.Target() in dir.names && dir.names[call.Target()] == inode
       case Reading(call, _, inode, raw) =>
         call.Target() in dir.names && dir.names[call.Target()] == inode && raw <= ContentOf(dir, call.Target())
       case Creating(_) => true
       case Writing(call, inode, view) =>
         Private(dir, call, inode) && FileAt(dir, inode).content + view == codec.encode(call.record)
       case Linking(call, inode) =>
         Private(dir, call, inode) && FileAt(dir, inode).content == codec.encode(call.record)
       case Unlinking(call, Published) =>
         && Holds(codec, dir, call.record.eventId, call.record)
         && NamesOf(dir, dir.names[call.Target()]) == {call.Target(), call.Temp()}
       case Unlinking(call, Found(record)) => Holds(codec, dir, call.record.eventId, record) && record.logical == call.record.logical
       case Unlinking(_, Raising) => true
       case SyncingDirectory(call) => Holds(codec, dir, call.record.eventId, call.record)
       case Returned(call, record) => Holds(codec, dir, call.record.eventId, record) && record.logical == call.record.logical
       case Gone(_) => true
  }

  /** The process relies on having seen the record under its one name. */
  predicate RestsOnRecord(process: Process) {
    process.Reading? || process.Returned? || process.SyncingDirectory? || (process.Unlinking? && process.ending.Found?)
  }

  predicate OneName(dir: Directory, eventId: string) {
    RecordName(eventId) in dir.names && NamesOf(dir, dir.names[RecordName(eventId)]) == {RecordName(eventId)}
  }

  predicate Inv(codec: Codec, s: State) {
    && DirectoryOk(codec, s.dir)
    && (forall pid | pid in s.processes :: ProcessOk(codec, s.dir, s.processes[pid]))
    && (forall p, q | p in s.processes && q in s.processes && p != q && Owns(s.processes[p]) && Owns(s.processes[q]) ::
          s.processes[p].call.Temp() != s.processes[q].call.Temp())
    && (forall pid | pid in s.processes && RestsOnRecord(s.processes[pid]) :: OneName(s.dir, s.processes[pid].call.record.eventId))
  }

  // ----- directory changes ---------------------------------------------------------------------

  /** How a directory may change under everybody else: published records stay, only one temporary name moves. */
  predicate Preserves(before: Directory, after: Directory, temp: Name) {
    && temp.TempName?
    && |before.inodes| <= |after.inodes|
    && (forall name | name in before.names && name != temp ::
          name in after.names && after.names[name] == before.names[name] && ContentOf(after, name) == ContentOf(before, name))
    && (temp in before.names && temp in after.names ==> after.names[temp] == before.names[temp])
    && (forall name | name in after.names && name !in before.names ::
          || after.names[name] >= |before.inodes|
          || (name.RecordName? && temp in before.names && after.names[name] == before.names[temp]))
  }

  lemma CreateChange(codec: Codec, dir: Directory, temp: Name)
    requires DirectoryOk(codec, dir) && temp.TempName? && temp !in dir.names
    ensures DirectoryOk(codec, CreateFile(dir, temp)) && Preserves(dir, CreateFile(dir, temp), temp)
  {
    var after := CreateFile(dir, temp);
    forall inode | 0 <= inode < |after.inodes| ensures after.inodes[inode].links == |NamesOf(after, inode)| {
      assert NamesOf(after, inode) == if inode == |dir.inodes| then {temp} else NamesOf(dir, inode);
    }
  }

  lemma LinkChange(codec: Codec, dir: Directory, call: Call, inode: nat)
    requires codec.Sound() && DirectoryOk(codec, dir) && Private(dir, call, inode) && call.Target() !in dir.names
    requires FileAt(dir, inode).content == codec.encode(call.record)
    ensures var after := LinkAs(dir, call.Target(), inode);
            && DirectoryOk(codec, after) && Preserves(dir, after, call.Temp())
            && NamesOf(after, inode) == {call.Target(), call.Temp()}
  {
    var after := LinkAs(dir, call.Target(), inode);
    assert NamesOf(dir, inode) == {call.Temp()};
    assert NamesOf(after, inode) == {call.Target(), call.Temp()};
    forall other | 0 <= other < |after.inodes| ensures after.inodes[other].links == |NamesOf(after, other)| {
      if other != inode {
        assert NamesOf(after, other) == NamesOf(dir, other);
      }
    }
  }

  lemma UnlinkChange(codec: Codec, dir: Directory, temp: Name)
    requires DirectoryOk(codec, dir) && temp in dir.names && temp.TempName?
    ensures var after := Unlink(dir, temp);
            && DirectoryOk(codec, after) && Preserves(dir, after, temp)
            && after.names == dir.names - {temp}
  {
    var target := dir.names[temp];
    assert temp in NamesOf(dir, target);
    var after := Unlink(dir, temp);
    forall inode | 0 <= inode < |after.inodes| ensures after.inodes[inode].links == |NamesOf(after, inode)| {
      assert NamesOf(after, inode) == NamesOf(dir, inode) - {temp};
    }
  }

  // ----- every step keeps it -------------------------------------------------------------------

  /** The names of a file that does not hold the temporary name in motion. */
  lemma NamesStay(codec: Codec, before: Directory, after: Directory, temp: Name, inode: nat)
    requires DirectoryOk(codec, before) && DirectoryOk(codec, after) && Preserves(before, after, temp)
    requires inode < |before.inodes| && temp !in NamesOf(before, inode)
    ensures NamesOf(after, inode) == NamesOf(before, inode)
  {
  }

  /** A process that does not own the temporary name in motion sees nothing change. */
  lemma BystanderKeeps(codec: Codec, before: Directory, after: Directory, temp: Name, process: Process)
    requires DirectoryOk(codec, before) && DirectoryOk(codec, after) && Preserves(before, after, temp)
    requires ProcessOk(codec, before, process)
    requires Owns(process) ==> process.call.Temp() != temp
    ensures ProcessOk(codec, after, process)
  {
    match process {
      case Writing(call, inode, _) =>
        NamesStay(codec, before, after, temp, inode);
        PrivateIffNames(after, call, inode);
        PrivateIffNames(before, call, inode);
      case Linking(call, inode) =>
        NamesStay(codec, before, after, temp, inode);
        PrivateIffNames(after, call, inode);
        PrivateIffNames(before, call, inode);
      case Unlinking(call, Published) =>
        NamesStay(codec, before, after, temp, before.names[call.Target()]);
      case _ =>
    }
  }

  lemma PrivateIffNames(dir: Directory, call: Call, inode: nat)
    ensures Private(dir, call, inode) <==> NamesOf(dir, inode) == {call.Temp()}
  {
    if NamesOf(dir, inode) == {call.Temp()} {
      assert call.Temp() in NamesOf(dir, inode);
      forall name | name in dir.names && dir.names[name] == inode ensures name == call.Temp() {
        assert name in NamesOf(dir, inode);
      }
    }
  }

  /** What a step of one process guarantees about the directory and about that process. */
  predicate StepOk(codec: Codec, dir: Directory, process: Process, after: Directory, next: Process) {
    && next.call == process.call
    && DirectoryOk(codec, after) && ProcessOk(codec, after, next)
    && (after == dir || Preserves(dir, after, process.call.Temp()))
    && (after != dir || Owns(next) ==> Owns(process) || process.call.Temp() !in dir.names)
    && (RestsOnRecord(next) ==> OneName(after, process.call.record.eventId))
  }

  lemma PerformKeeps(codec: Codec, dir: Directory, process: Process, amount: nat)
    requires codec.Sound() && DirectoryOk(codec, dir) && ProcessOk(codec, dir, process)
    requires RestsOnRecord(process) ==> OneName(dir, process.call.record.eventId)
    ensures StepOk(codec, dir, process, Perform(codec, dir, process, amount).0, Perform(codec, dir, process, amount).1)
  {
    hide DirectoryOk, NamesOf, Preserves, Private, IsWhole, CreateFile, LinkAs, AppendTo, Unlink;
    match process {
      case Checking(call, _, _) => LoneName(codec, dir, call.Target());
      case Reading(_, _, _, _) => ReadKeeps(codec, dir, process, amount);
      case Creating(call) => CreateKeeps(codec, dir, call, amount);
      case Writing(call, inode, view) => WriteKeeps(codec, dir, call, inode, view, amount);
      case Linking(call, inode) => LinkKeeps(codec, dir, call, inode, amount);
      case Unlinking(call, ending) => UnlinkKeeps(codec, dir, call, ending, amount);
      case _ =>
    }
  }

  lemma CreateKeeps(codec: Codec, dir: Directory, call: Call, amount: nat)
    requires DirectoryOk(codec, dir)
    ensures StepOk(codec, dir, Creating(call), Perform(codec, dir, Creating(call), amount).0, Perform(codec, dir, Creating(call), amount).1)
  {
    if call.Temp() !in dir.names {
      CreateChange(codec, dir, call.Temp());
    }
  }

  lemma WriteKeeps(codec: Codec, dir: Directory, call: Call, inode: nat, view: Bytes, amount: nat)
    requires DirectoryOk(codec, dir) && ProcessOk(codec, dir, Writing(call, inode, view))
    ensures var (after, next) := Perform(codec, dir, Writing(call, inode, view), amount);
            StepOk(codec, dir, Writing(call, inode, view), after, next)
  {
  }

  lemma LinkKeeps(codec: Codec, dir: Directory, call: Call, inode: nat, amount: nat)
    requires codec.Sound() && DirectoryOk(codec, dir) && ProcessOk(codec, dir, Linking(call, inode))
    ensures var (after, next) := Perform(codec, dir, Linking(call, inode), amount);
            StepOk(codec, dir, Linking(call, inode), after, next)
  {
    if call.Target() !in dir.names {
      LinkChange(codec, dir, call, inode);
    }
  }

  /** A file with one link has just the name by which it was found. */
  lemma LoneName(codec: Codec, dir: Directory, name: Name)
    requires DirectoryOk(codec, dir) && name in dir.names
    ensures FileAt(dir, dir.names[name]).links == 1 <==> NamesOf(dir, dir.names[name]) == {name}
  {
    var names := NamesOf(dir, dir.names[name]);
    assert name in names;
    if |names| == 1 {
      assert |names - {name}| == 0;
    }
  }

  lemma ReadKeeps(codec: Codec, dir: Directory, process: Process, amount: nat)
    requires codec.Sound() && DirectoryOk(codec, dir) && process.Reading? && ProcessOk(codec, dir, process)
    ensures var next := Perform(codec, dir, process, amount).1;
            ProcessOk(codec, dir, next) && next.call == process.call && (Owns(next) ==> Owns(process))
  {
    var content := ContentOf(dir, process.call.Target());
    if |process.raw| >= |content| || Wanted(process.raw) == 0 {
      if |process.raw| <= MAX_RECORD_BYTES {
        assert process.raw == content;
      }
    } else {
      var size := Min(1 + amount, Min(Wanted(process.raw), |content| - |process.raw|));
      assert process.raw + content[|process.raw|..|process.raw| + size] <= content;
    }
  }

  lemma UnlinkKeeps(codec: Codec, dir: Directory, call: Call, ending: Ending, amount: nat)
    requires codec.Sound() && DirectoryOk(codec, dir) && ProcessOk(codec, dir, Unlinking(call, ending))
    requires ending.Found? ==> OneName(dir, call.record.eventId)
    ensures var (after, next) := Perform(codec, dir, Unlinking(call, ending), amount);
            StepOk(codec, dir, Unlinking(call, ending), after, next)
  {
    UnlinkChange(codec, dir, call.Temp());
    var after := Unlink(dir, call.Temp());
    if ending.Published? || ending.Found? {
      var inode := dir.names[call.Target()];
      assert NamesOf(after, inode) == NamesOf(dir, inode) - {call.Temp()};
    }
  }

  /** Others keep their one-name evidence: only a link adds a name, and only where there was no record. */
  lemma BystanderKeepsName(codec: Codec, before: Directory, after: Directory, temp: Name, eventId: string)
    requires DirectoryOk(codec, before) && DirectoryOk(codec, after) && Preserves(before, after, temp)
    requires OneName(before, eventId)
    ensures OneName(after, eventId)
  {
  }

  /** A failed call or a crash changes no directory and leaves a process that may be in that state. */
  lemma FailKeeps(codec: Codec, dir: Directory, process: Process)
    requires DirectoryOk(codec, dir) && ProcessOk(codec, dir, process)
    requires RestsOnRecord(process) ==> OneName(dir, process.call.record.eventId)
    ensures StepOk(codec, dir, process, dir, Fail(process))
    ensures StepOk(codec, dir, process, dir, Gone(process.call))
  {
  }

  /** Replacing one process by its step keeps the invariant of all. */
  lemma StepKeeps(codec: Codec, s: State, pid: nat, after: Directory, next: Process)
    requires Inv(codec, s) && pid in s.processes && StepOk(codec, s.dir, s.processes[pid], after, next)
    ensures Inv(codec, State(after, s.processes[pid := next]))
  {
    hide DirectoryOk, NamesOf, Preserves, ProcessOk, OneName;
    var process := s.processes[pid];
    forall other | other in s.processes && other != pid
      ensures ProcessOk(codec, after, s.processes[other])
      ensures RestsOnRecord(s.processes[other]) ==> OneName(after, s.processes[other].call.record.eventId)
      ensures Owns(next) && Owns(s.processes[other]) ==> next.call.Temp() != s.processes[other].call.Temp()
    {
      OwnedNameExists(codec, s.dir, s.processes[other]);
      if after != s.dir {
        BystanderKeeps(codec, s.dir, after, process.call.Temp(), s.processes[other]);
        if RestsOnRecord(s.processes[other]) {
          BystanderKeepsName(codec, s.dir, after, process.call.Temp(), s.processes[other].call.record.eventId);
        }
      }
    }
  }

  lemma OwnedNameExists(codec: Codec, dir: Directory, process: Process)
    requires ProcessOk(codec, dir, process)
    ensures Owns(process) ==> process.call.Temp() in dir.names
  {
  }

  lemma NextKeeps(codec: Codec, s: State, input: Input)
    requires codec.Sound() && Inv(codec, s)
    ensures Inv(codec, Next(codec, s, input))
  {
    hide DirectoryOk, OneName, Perform, Fail, StepOk;
    if input.pid in s.processes {
      var process := s.processes[input.pid];
      match input.move {
        case Arrive(_, _) =>
        case Proceed(amount) =>
          PerformKeeps(codec, s.dir, process, amount);
          var (dir, next) := Perform(codec, s.dir, process, amount);
          StepKeeps(codec, s, input.pid, dir, next);
        case FailCall =>
          FailKeeps(codec, s.dir, process);
          StepKeeps(codec, s, input.pid, s.dir, Fail(process));
        case Crash =>
          FailKeeps(codec, s.dir, process);
          StepKeeps(codec, s, input.pid, s.dir, Gone(process.call));
      }
    }
  }

  lemma {:induction false} EveryRun(codec: Codec, inputs: seq<Input>)
    requires codec.Sound()
    ensures Inv(codec, Exec(codec, inputs))
  {
    if inputs != [] {
      EveryRun(codec, inputs[..|inputs| - 1]);
      NextKeeps(codec, Exec(codec, inputs[..|inputs| - 1]), inputs[|inputs| - 1]);
    }
  }

  // ----- the promises --------------------------------------------------------------------------

  /** A published name never moves to another file and its file never changes. */
  predicate KeepsRecords(before: Directory, after: Directory) {
    forall name | name in before.names && name.RecordName? ::
      name in after.names && after.names[name] == before.names[name] && ContentOf(after, name) == ContentOf(before, name)
  }

  lemma NextKeepsRecords(codec: Codec, s: State, input: Input)
    requires codec.Sound() && Inv(codec, s)
    ensures KeepsRecords(s.dir, Next(codec, s, input).dir)
  {
  }

  /**
   Publish once: in every run, however it continues, a record name once published keeps its file, and
   that file is at all times one whole record of its event, never part of one.
   */
  lemma {:induction false} PublishedForever(codec: Codec, inputs: seq<Input>, more: seq<Input>, eventId: string)
    requires codec.Sound() && RecordName(eventId) in Exec(codec, inputs).dir.names
    ensures var before := Exec(codec, inputs).dir;
            var after := Exec(codec, inputs + more).dir;
            && RecordName(eventId) in after.names
            && after.names[RecordName(eventId)] == before.names[RecordName(eventId)]
            && ContentOf(after, RecordName(eventId)) == ContentOf(before, RecordName(eventId))
            && IsWhole(codec, ContentOf(after, RecordName(eventId)), eventId)
  {
    hide Next;
    EveryRun(codec, inputs + more);
    if more == [] {
      assert inputs + more == inputs;
    } else {
      var shorter := more[..|more| - 1];
      assert (inputs + more)[..|inputs + more| - 1] == inputs + shorter;
      PublishedForever(codec, inputs, shorter, eventId);
      EveryRun(codec, inputs + shorter);
      NextKeepsRecords(codec, Exec(codec, inputs + shorter), more[|more| - 1]);
    }
  }

  /**
   All calls that return for one event return the same record, the published one, and so they all
   asked for the same logical request: a call with another one never returns.
   */
  lemma ReturnsAgree(codec: Codec, inputs: seq<Input>, p: nat, q: nat)
    requires codec.Sound()
    requires var processes := Exec(codec, inputs).processes;
             && p in processes && q in processes && processes[p].Returned? && processes[q].Returned?
             && processes[p].call.record.eventId == processes[q].call.record.eventId
    ensures var s := Exec(codec, inputs);
            var (one, two) := (s.processes[p], s.processes[q]);
            && one.record == two.record
            && Holds(codec, s.dir, one.call.record.eventId, one.record)
            && one.call.record.logical == two.call.record.logical == one.record.logical
  {
    hide Next;
    EveryRun(codec, inputs);
    var s := Exec(codec, inputs);
    assert ProcessOk(codec, s.dir, s.processes[p]) && ProcessOk(codec, s.dir, s.processes[q]);
    assert codec.decode(codec.encode(s.processes[p].record)) == Some(s.processes[p].record);
    assert codec.decode(codec.encode(s.processes[q].record)) == Some(s.processes[q].record);
  }

  /** The record's file still has a temporary name, and no live process will remove it. */
  predicate Abandoned(s: State, eventId: string, temp: Name) {
    && RecordName(eventId) in s.dir.names && temp.TempName? && temp in s.dir.names
    && s.dir.names[temp] == s.dir.names[RecordName(eventId)]
    && forall pid | pid in s.processes && Owns(s.processes[pid]) :: s.processes[pid].call.Temp() != temp
  }

  lemma NextKeepsAbandoned(codec: Codec, s: State, input: Input, eventId: string, temp: Name)
    requires codec.Sound() && Inv(codec, s) && Abandoned(s, eventId, temp)
    ensures Abandoned(Next(codec, s, input), eventId, temp)
  {
    hide DirectoryOk, OneName, Perform, ProcessOk;
    if input.pid in s.processes {
      if input.move.Proceed? {
        PerformKeeps(codec, s.dir, s.processes[input.pid], input.move.amount);
      } else {
        FailKeeps(codec, s.dir, s.processes[input.pid]);
      }
    }
  }

  /**
   Failing closed: after a crash between link and unlink the record has two names for ever, and then no
   call for that event has returned or ever returns.
   */
  lemma {:induction false} AbandonedNeverReturns(codec: Codec, inputs: seq<Input>, more: seq<Input>, eventId: string, temp: Name, pid: nat)
    requires codec.Sound() && Abandoned(Exec(codec, inputs), eventId, temp)
    ensures Abandoned(Exec(codec, inputs + more), eventId, temp)
    ensures var processes := Exec(codec, inputs + more).processes;
            pid in processes && processes[pid].Returned? ==> processes[pid].call.record.eventId != eventId
  {
    hide Next, Abandoned;
    if more == [] {
      assert inputs + more == inputs;
    } else {
      var shorter := more[..|more| - 1];
      assert (inputs + more)[..|inputs + more| - 1] == inputs + shorter;
      AbandonedNeverReturns(codec, inputs, shorter, eventId, temp, pid);
      EveryRun(codec, inputs + shorter);
      NextKeepsAbandoned(codec, Exec(codec, inputs + shorter), more[|more| - 1], eventId, temp);
    }
    EveryRun(codec, inputs + more);
    TwoNamesNoReturn(codec, Exec(codec, inputs + more), eventId, temp, pid);
  }

  lemma TwoNamesNoReturn(codec: Codec, s: State, eventId: string, temp: Name, pid: nat)
    requires Inv(codec, s) && Abandoned(s, eventId, temp)
    ensures pid in s.processes && s.processes[pid].Returned? ==> s.processes[pid].call.record.eventId != eventId
  {
    assert temp in NamesOf(s.dir, s.dir.names[RecordName(eventId)]);
  }

  /** An existing record is read on only while its file has one name, and then in full: what a reader accepts is the published record. */
  lemma ReadersSeePublished(codec: Codec, inputs: seq<Input>, pid: nat, amount: nat)
    requires codec.Sound()
    requires var s := Exec(codec, inputs); pid in s.processes && s.processes[pid].Checking?
    ensures var s := Exec(codec, inputs);
            var call := s.processes[pid].call;
            var next := Next(codec, s, Input(pid, Proceed(amount))).processes[pid];
            && call.Target() in s.dir.names
            && (next.Reading? <==>
                OneName(s.dir, call.record.eventId) && |ContentOf(s.dir, call.Target())| <= MAX_RECORD_BYTES)
  {
    EveryRun(codec, inputs);
    var s := Exec(codec, inputs);
    var call := s.processes[pid].call;
    assert ProcessOk(codec, s.dir, s.processes[pid]);
    LoneName(codec, s.dir, call.Target());
    var decoded := codec.decode(ContentOf(s.dir, call.Target()));
    assert codec.encode(decoded.value) != [];
  }

  // ----- a crash between link and unlink -------------------------------------------------------

  /** A process that dies, or whose unlink fails, after its link leaves the record abandoned. */
  lemma CrashAbandons(codec: Codec, s: State, pid: nat, move: Move)
    requires Inv(codec, s) && pid in s.processes && s.processes[pid].Unlinking? && s.processes[pid].ending.Published?
    requires move.Crash? || move.FailCall?
    ensures var call := s.processes[pid].call;
            Abandoned(Next(codec, s, Input(pid, move)), call.record.eventId, call.Temp())
  {
    var call := s.processes[pid].call;
    assert ProcessOk(codec, s.dir, s.processes[pid]);
    assert call.Temp() in NamesOf(s.dir, s.dir.names[call.Target()]);
  }

  /**
   If a process crashes between link and unlink, or its unlink fails, then from there on its record stays
   published and whole, and no call for that event has returned or ever returns.
   */
  lemma CrashAfterLinkNeverReturns(codec: Codec, inputs: seq<Input>, pid: nat, move: Move, more: seq<Input>, other: nat)
    requires codec.Sound() && (move.Crash? || move.FailCall?)
    requires var s := Exec(codec, inputs);
             pid in s.processes && s.processes[pid].Unlinking? && s.processes[pid].ending.Published?
    ensures var record := Exec(codec, inputs).processes[pid].call.record;
            var after := Exec(codec, inputs + [Input(pid, move)] + more);
            && Holds(codec, after.dir, record.eventId, record)
            && (other in after.processes && after.processes[other].Returned? ==>
                  after.processes[other].call.record.eventId != record.eventId)
  {
    hide Next, Abandoned;
    var s := Exec(codec, inputs);
    var call := s.processes[pid].call;
    var crashed := inputs + [Input(pid, move)];
    assert crashed[..|crashed| - 1] == inputs;
    EveryRun(codec, inputs);
    CrashAbandons(codec, s, pid, move);
    assert ProcessOk(codec, s.dir, s.processes[pid]);
    PublishedForever(codec, inputs, [Input(pid, move)] + more, call.record.eventId);
    assert inputs + ([Input(pid, move)] + more) == crashed + more;
    AbandonedNeverReturns(codec, crashed, more, call.record.eventId, call.Temp(), other);
  }

  // ----- a call that runs alone ----------------------------------------------------------------

  /** The same process making its system calls one after the other, none failing. */
  function Proceeding(pid: nat, amounts: seq<nat>): seq<Input> {
    seq(|amounts|, i requires 0 <= i < |amounts| => Input(pid, Proceed(amounts[i])))
  }

  function CallAlone(inputs: seq<Input>, pid: nat, record: SigningRecord, token: string, amounts: seq<nat>): seq<Input> {
    inputs + [Input(pid, Arrive(record, token))] + Proceeding(pid, amounts)
  }

  lemma AloneStep(codec: Codec, inputs: seq<Input>, pid: nat, record: SigningRecord, token: string, amounts: seq<nat>)
    ensures amounts == [] ==>
              Exec(codec, CallAlone(inputs, pid, record, token, amounts)) == Next(codec, Exec(codec, inputs), Input(pid, Arrive(record, token)))
    ensures amounts != [] ==>
              Exec(codec, CallAlone(inputs, pid, record, token, amounts))
              == Next(codec, Exec(codec, CallAlone(inputs, pid, record, token, amounts[..|amounts| - 1])),
                      Input(pid, Proceed(amounts[|amounts| - 1])))
  {
    hide Next;
    var all := CallAlone(inputs, pid, record, token, amounts);
    if amounts == [] {
      assert all == inputs + [Input(pid, Arrive(record, token))];
      assert all[..|all| - 1] == inputs;
    } else {
      assert all[..|all| - 1] == CallAlone(inputs, pid, record, token, amounts[..|amounts| - 1]);
    }
  }

  /** Whether an existing record can be read at all: its file has one name and a permitted size. */
  predicate Readable(dir: Directory, eventId: string) {
    OneName(dir, eventId) && |ContentOf(dir, RecordName(eventId))| <= MAX_RECORD_BYTES
  }

  /** How far a lone call on a published event has come after n system calls. */
  predicate ReadingAlone(codec: Codec, dir: Directory, process: Process, call: Call, n: nat)
    requires call.Target() in dir.names
  {
    var inode := dir.names[call.Target()];
    var content := ContentOf(dir, call.Target());
    if n == 0 then process == Opening(call, false)
    else if n == 1 then process == Checking(call, false, inode)
    else if !Readable(dir, call.record.eventId) then process == Gone(call)
    else
      || process == Accept(codec, call, false, content)
      || (process.Reading? && process == Reading(call, false, inode, process.raw) && process.raw <= content && n - 2 <= |process.raw|)
  }

  lemma ReadsOn(codec: Codec, dir: Directory, process: Process, call: Call, n: nat, amount: nat)
    requires codec.Sound() && DirectoryOk(codec, dir) && call.Target() in dir.names && ReadingAlone(codec, dir, process, call, n)
    ensures Perform(codec, dir, process, amount).0 == dir
    ensures ReadingAlone(codec, dir, Perform(codec, dir, process, amount).1, call, n + 1)
  {
    hide NamesOf;
    var content := ContentOf(dir, call.Target());
    LoneName(codec, dir, call.Target());
    assert IsWhole(codec, content, call.record.eventId);
    assert codec.encode(codec.decode(content).value) != [];
    if process.Reading? && |process.raw| >= |content| {
      assert process.raw == content;
    } else if process.Reading? && Readable(dir, call.record.eventId) && n >= 2 {
      var size := Min(1 + amount, Min(Wanted(process.raw), |content| - |process.raw|));
      assert process.raw + content[|process.raw|..|process.raw| + size] <= content;
    }
  }

  lemma {:induction false} ReadsAlone(codec: Codec, inputs: seq<Input>, pid: nat, record: SigningRecord, token: string, amounts: seq<nat>)
    requires codec.Sound() && pid !in Exec(codec, inputs).processes && RecordName(record.eventId) in Exec(codec, inputs).dir.names
    ensures var s := Exec(codec, inputs);
            var t := Exec(codec, CallAlone(inputs, pid, record, token, amounts));
            && t.dir == s.dir && pid in t.processes
            && ReadingAlone(codec, s.dir, t.processes[pid], Call(record, token), |amounts|)
  {
    hide ReadingAlone, Perform, Exec;
    AloneStep(codec, inputs, pid, record, token, amounts);
    var s := Exec(codec, inputs);
    var call := Call(record, token);
    if amounts == [] {
      StartsAlone(codec, s.dir, call);
    } else {
      var before := amounts[..|amounts| - 1];
      ReadsAlone(codec, inputs, pid, record, token, before);
      EveryRun(codec, inputs);
      var t := Exec(codec, CallAlone(inputs, pid, record, token, before));
      ReadsOn(codec, s.dir, t.processes[pid], call, |before|, amounts[|amounts| - 1]);
    }
  }

  lemma StartsAlone(codec: Codec, dir: Directory, call: Call)
    requires call.Target() in dir.names
    ensures ReadingAlone(codec, dir, Opening(call, false), call, 0)
  {
  }

  /**
   A call that runs alone and meets no fault, on an event already published, changes nothing, and returns
   the published record if and only if its file has one name and a permitted size and it answers the same
   logical request; otherwise it raises.
   */
  lemma LoneCallReturnsIff(codec: Codec, inputs: seq<Input>, pid: nat, record: SigningRecord, token: string, amounts: seq<nat>)
    requires codec.Sound() && pid !in Exec(codec, inputs).processes && RecordName(record.eventId) in Exec(codec, inputs).dir.names
    requires |amounts| >= |ContentOf(Exec(codec, inputs).dir, RecordName(record.eventId))| + 3
    ensures var s := Exec(codec, inputs);
            var published := codec.decode(ContentOf(s.dir, RecordName(record.eventId)));
            var t := Exec(codec, CallAlone(inputs, pid, record, token, amounts));
            && t.dir == s.dir && published.Some? && pid in t.processes
            && t.processes[pid] == if Readable(s.dir, record.eventId) && published.value.logical == record.logical
                                   then Returned(Call(record, token), published.value)
                                   else Gone(Call(record, token))
  {
    hide Next, Exec;
    EveryRun(codec, inputs);
    ReadsAlone(codec, inputs, pid, record, token, amounts);
    var dir := Exec(codec, inputs).dir;
    assert IsWhole(codec, ContentOf(dir, RecordName(record.eventId)), record.eventId);
  }

  /** How many system calls a lone publishing call still needs. */
  function StepsLeft(codec: Codec, process: Process): nat {
    var size := |codec.encode(process.call.record)|;
    match process
    case Opening(_, _) => size + 6
    case Creating(_) => size + 5
    case Writing(_, _, view) => |view| + 4
    case Linking(_, _) => 3
    case Unlinking(_, _) => 2
    case SyncingDirectory(_) => 1
    case _ => 0
  }

  /** A lone call on an unpublished event, anywhere on its way. */
  predicate PublishingAlone(dir: Directory, process: Process, call: Call) {
    && process.call == call
    && match process
       case Opening(_, raced) => !raced && call.Target() !in dir.names && call.Temp() !in dir.names
       case Creating(_) => call.Target() !in dir.names && call.Temp() !in dir.names
       case Writing(_, _, _) => call.Target() !in dir.names
       case Linking(_, _) => call.Target() !in dir.names
       case Unlinking(_, ending) => ending.Published?
       case SyncingDirectory(_) => true
       case Returned(_, record) => record == call.record
       case _ => false
  }

  lemma PublishesOn(codec: Codec, dir: Directory, process: Process, call: Call, amount: nat)
    requires PublishingAlone(dir, process, call) && amount > 0
    ensures var (after, next) := Perform(codec, dir, process, amount);
            && PublishingAlone(after, next, call)
            && (StepsLeft(codec, next) < StepsLeft(codec, process) || StepsLeft(codec, next) == 0)
  {
  }

  lemma {:induction false} PublishesAlone(codec: Codec, inputs: seq<Input>, pid: nat, record: SigningRecord, token: string, amounts: seq<nat>)
    requires pid !in Exec(codec, inputs).processes
    requires RecordName(record.eventId) !in Exec(codec, inputs).dir.names
    requires TempName(record.eventId, token) !in Exec(codec, inputs).dir.names
    requires forall i | 0 <= i < |amounts| :: amounts[i] > 0
    ensures var t := Exec(codec, CallAlone(inputs, pid, record, token, amounts));
            && pid in t.processes && PublishingAlone(t.dir, t.processes[pid], Call(record, token))
            && (StepsLeft(codec, t.processes[pid]) == 0
                || StepsLeft(codec, t.processes[pid]) + |amounts| <= |codec.encode(record)| + 6)
  {
    hide Perform, Exec, PublishingAlone;
    AloneStep(codec, inputs, pid, record, token, amounts);
    if amounts == [] {
      StartsPublishing(Exec(codec, inputs).dir, Call(record, token));
    } else {
      var before := amounts[..|amounts| - 1];
      PublishesAlone(codec, inputs, pid, record, token, before);
      var t := Exec(codec, CallAlone(inputs, pid, record, token, before));
      PublishesOn(codec, t.dir, t.processes[pid], Call(record, token), amounts[|amounts| - 1]);
    }
  }

  lemma StartsPublishing(dir: Directory, call: Call)
    requires call.Target() !in dir.names && call.Temp() !in dir.names
    ensures PublishingAlone(dir, Opening(call, false), call)
  {
  }

  /** A call that runs alone and meets no fault, on an event not yet published, publishes and returns its own record. */
  lemma LoneCallPublishes(codec: Codec, inputs: seq<Input>, pid: nat, record: SigningRecord, token: string, amounts: seq<nat>)
    requires codec.Sound() && pid !in Exec(codec, inputs).processes
    requires RecordName(record.eventId) !in Exec(codec, inputs).dir.names
    requires TempName(record.eventId, token) !in Exec(codec, inputs).dir.names
    requires |amounts| >= |codec.encode(record)| + 6 && forall i | 0 <= i < |amounts| :: amounts[i] > 0
    ensures var t := Exec(codec, CallAlone(inputs, pid, record, token, amounts));
            && pid in t.processes && t.processes[pid] == Returned(Call(record, token), record)
            && Holds(codec, t.dir, record.eventId, record) && OneName(t.dir, record.eventId)
  {
    hide Next, Exec, OneName, Holds, DirectoryOk;
    PublishesAlone(codec, inputs, pid, record, token, amounts);
    var all := CallAlone(inputs, pid, record, token, amounts);
    EveryRun(codec, all);
    var t := Exec(codec, all);
    assert ProcessOk(codec, t.dir, t.processes[pid]);
  }

  // ----- a call that loses the link race -------------------------------------------------------

  /** Where a call that lost the race ends, given what it reads under the record's name. */
  function AfterRace(codec: Codec, dir: Directory, call: Call): Process
    requires call.Target() in dir.names
  {
    match codec.decode(ContentOf(dir, call.Target()))
    case Some(record) => if Readable(dir, call.record.eventId) && record.logical == call.record.logical then Returned(call, record) else Gone(call)
    case None => Gone(call)
  }

  /** What it still has to unlink before that. */
  function BeforeUnlink(end: Process): Process {
    Unlinking(end.call, if end.Returned? then Found(end.record) else Raising)
  }

  /** How far such a call, going on alone, has come after n system calls; its directory was `start`. */
  predicate RacingAlone(codec: Codec, start: Directory, dir: Directory, process: Process, call: Call, n: nat)
    requires call.Target() in start.names
  {
    var inode, content, end := start.names[call.Target()], ContentOf(start, call.Target()), AfterRace(codec, start, call);
    if n == 0 then dir == start && process.Linking? && process.call == call
    else if n == 1 then dir == start && process == Opening(call, true)
    else if n == 2 then dir == start && process == Checking(call, true, inode)
    else
      || (dir == start && process == BeforeUnlink(end) && n <= |content| + 4)
      || (dir == Unlink(start, call.Temp()) && process == end)
      || (&& dir == start && Readable(start, call.record.eventId) && process.Reading?
          && process == Reading(call, true, inode, process.raw) && process.raw <= content && n - 3 <= |process.raw|)
  }

  lemma RacesOn(codec: Codec, start: Directory, dir: Directory, process: Process, call: Call, n: nat, amount: nat)
    requires codec.Sound() && DirectoryOk(codec, start) && call.Target() in start.names
    requires RacingAlone(codec, start, dir, process, call, n)
    ensures var (after, next) := Perform(codec, dir, process, amount); RacingAlone(codec, start, after, next, call, n + 1)
  {
    hide NamesOf, Unlink;
    var content := ContentOf(start, call.Target());
    LoneName(codec, start, call.Target());
    assert IsWhole(codec, content, call.record.eventId);
    assert codec.encode(codec.decode(content).value) != [];
    if process.Reading? {
      if |process.raw| >= |content| {
        assert process.raw == content;
      } else {
        var size := Min(1 + amount, Min(Wanted(process.raw), |content| - |process.raw|));
        assert process.raw + content[|process.raw|..|process.raw| + size] <= content;
      }
    }
  }

  lemma {:induction false} RacesAlone(codec: Codec, inputs: seq<Input>, pid: nat, amounts: seq<nat>)
    requires codec.Sound()
    requires var s := Exec(codec, inputs);
             pid in s.processes && s.processes[pid].Linking? && s.processes[pid].call.Target() in s.dir.names
    ensures var s, t := Exec(codec, inputs), Exec(codec, inputs + Proceeding(pid, amounts));
            && pid in t.processes
            && RacingAlone(codec, s.dir, t.dir, t.processes[pid], s.processes[pid].call, |amounts|)
  {
    hide Perform, Exec;
    var s := Exec(codec, inputs);
    var all := inputs + Proceeding(pid, amounts);
    if amounts == [] {
      assert all == inputs;
    } else {
      var before := amounts[..|amounts| - 1];
      RacesAlone(codec, inputs, pid, before);
      EveryRun(codec, inputs);
      assert all[..|all| - 1] == inputs + Proceeding(pid, before);
      assert all[|all| - 1] == Input(pid, Proceed(amounts[|amounts| - 1]));
      var t := Exec(codec, all[..|all| - 1]);
      RacesOn(codec, s.dir, t.dir, t.processes[pid], s.processes[pid].call, |before|, amounts[|amounts| - 1]);
      LastStep(codec, all);
    }
  }

  lemma LastStep(codec: Codec, inputs: seq<Input>)
    requires inputs != []
    ensures Exec(codec, inputs) == Next(codec, Exec(codec, inputs[..|inputs| - 1]), inputs[|inputs| - 1])
  {
  }

  /**
   A call that is about to link and finds its record already published, and goes on alone without faults, removes
   its temporary name and nothing else, and returns the published record if and only if that has one name and a
   permitted size and answers the same logical request; otherwise it raises.
   */
  lemma LostRaceReturnsIff(codec: Codec, inputs: seq<Input>, pid: nat, amounts: seq<nat>)
    requires codec.Sound()
    requires var s := Exec(codec, inputs);
             && pid in s.processes && s.processes[pid].Linking? && s.processes[pid].call.Target() in s.dir.names
             && |amounts| >= |ContentOf(s.dir, s.processes[pid].call.Target())| + 5
    ensures var s, t := Exec(codec, inputs), Exec(codec, inputs + Proceeding(pid, amounts));
            var call := s.processes[pid].call;
            var published := codec.decode(ContentOf(s.dir, call.Target()));
            && published.Some? && call.Temp() in s.dir.names && pid in t.processes
            && t.dir.names == s.dir.names - {call.Temp()}
            && t.processes[pid] == if Readable(s.dir, call.record.eventId) && published.value.logical == call.record.logical
                                   then Returned(call, published.value)
                                   else Gone(call)
  {
    hide Next, Exec;
    EveryRun(codec, inputs);
    RacesAlone(codec, inputs, pid, amounts);
    var s := Exec(codec, inputs);
    var call := s.processes[pid].call;
    assert ProcessOk(codec, s.dir, s.processes[pid]);
    assert IsWhole(codec, ContentOf(s.dir, call.Target()), call.record.eventId);
    assert call.Temp() in NamesOf(s.dir, s.dir.names[call.Temp()]);
  }
}
