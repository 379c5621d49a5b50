/** The microSD card as the recording sink sees it through the C library. Every call may fail; what
    the n-th call does is decided by an environment, so a statement about all environments is one
    about all patterns of failure. */
module Card {
  import opened Bytes

  /** A file: the bytes that survive a loss of power, and those still in the stream's buffer. */
  datatype File = File(durable: seq<Byte>, pending: seq<Byte>)

  datatype Disk = Disk(directories: set<string>, files: map<string, File>)

  /** What becomes of a call; `amount` bounds the bytes a failing call still transfers. */
  datatype Outcome = Outcome(succeeds: bool, amount: nat)

  type Environment = nat -> Outcome

  /** The card, the open streams by handle, how many streams were opened and closed, how many calls
      were made, and the disk after each of them, oldest first. */
  datatype Storage = Storage(disk: Disk, streams: map<nat, string>, openCount: nat, closeCount: nat, calls: nat,
                             history: seq<Disk>)

  function Start(disk: Disk): Storage {
    Storage(disk, map[], 0, 0, 0, [disk])
  }

  function Next(s: Storage, disk: Disk): Storage {
    s.(disk := disk, calls := s.calls + 1, history := s.history + [disk])
  }

  function Now(env: Environment, s: Storage): Outcome {
    env(s.calls)
  }

  datatype MkdirResult = Created | AlreadyExists | Failed

  /** mkdir succeeds on absent names only; it may fail for any other reason first. */
  function Mkdir(env: Environment, s: Storage, path: string): (r: (Storage, MkdirResult))
    ensures s.history <= r.0.history
  {
    if !Now(env, s).succeeds then (Next(s, s.disk), Failed)
    else if path in s.disk.directories || path in s.disk.files then (Next(s, s.disk), AlreadyExists)
    else (Next(s, s.disk.(directories := s.disk.directories + {path})), Created)
  }

  datatype OpenResult = NotOpened | Opened(handle: nat)

  /** fopen for writing creates the file or empties it. */
  function Fopen(env: Environment, s: Storage, path: string): (Storage, OpenResult) {
    if !Now(env, s).succeeds then (Next(s, s.disk), NotOpened)
    else
      var disk := s.disk.(files := s.disk.files[path := File([], [])]);
      (Next(s, disk).(streams := s.streams[s.openCount := path], openCount := s.openCount + 1), Opened(s.openCount))
  }

  function WithFile(s: Storage, handle: nat, file: File): Disk
    requires handle in s.streams
  {
    s.disk.(files := s.disk.files[s.streams[handle] := file])
  }

  /** fwrite buffers the data, or only a part of it; the result is how much. */
  function Fwrite(env: Environment, s: Storage, handle: nat, data: seq<Byte>): (r: (Storage, nat))
    requires handle in s.streams && s.streams[handle] in s.disk.files
  {
    var file := s.disk.files[s.streams[handle]];
    var taken := if Now(env, s).succeeds || Now(env, s).amount > |data| then |data| else Now(env, s).amount;
    (Next(s, WithFile(s, handle, file.(pending := file.pending + data[..taken]))), taken)
  }

  function Transfer(file: File, amount: nat): File {
    var n := if amount > |file.pending| then |file.pending| else amount;
    File(file.durable + file.pending[..n], file.pending[n..])
  }

  /** fflush makes the buffer durable. A failed fflush keeps what it did not transfer in the buffer. */
  function Fflush(env: Environment, s: Storage, handle: nat): (r: (Storage, bool))
    requires handle in s.streams && s.streams[handle] in s.disk.files
    ensures r.0.streams == s.streams && s.streams[handle] in r.0.disk.files
    ensures s.history <= r.0.history
  {
    var file := s.disk.files[s.streams[handle]];
    var ok := Now(env, s).succeeds;
    (Next(s, WithFile(s, handle, Transfer(file, if ok then |file.pending| else Now(env, s).amount))), ok)
  }

  /** fclose gives up the stream whether it succeeds or not; a failed one loses what it did not transfer. */
  function Fclose(env: Environment, s: Storage, handle: nat): (r: (Storage, bool))
    requires handle in s.streams && s.streams[handle] in s.disk.files
    ensures s.history <= r.0.history
  {
    var file := s.disk.files[s.streams[handle]];
    var ok := Now(env, s).succeeds;
    var last := Transfer(file, if ok then |file.pending| else Now(env, s).amount);
    (Next(s, WithFile(s, handle, last.(pending := []))).(streams := s.streams - {handle},
                                                         closeCount := s.closeCount + 1), ok)
  }

  /** rename is atomic: it moves the file, replacing any file of the new name, or changes nothing. */
  function Rename(env: Environment, s: Storage, from: string, to: string): (Storage, bool) {
    if !Now(env, s).succeeds || from !in s.disk.files then (Next(s, s.disk), false)
    else (Next(s, s.disk.(files := (s.disk.files - {from})[to := s.disk.files[from]])), true)
  }

  /** What may be found in a file after a loss of power: the durable bytes and some of the pending ones. */
  ghost predicate CrashImage(file: File, image: seq<Byte>) {
    exists n :: 0 <= n <= |file.pending| && image == file.durable + file.pending[..n]
  }

  class MicroSd {
    const environment: Environment
    var storage: Storage

    constructor (environment: Environment, disk: Disk)
      ensures this.environment == environment && storage == Start(disk)
    {
      this.environment := environment;
      storage := Start(disk);
    }

    method MakeDirectory(path: string) returns (r: MkdirResult)
      modifies this
      ensures (storage, r) == Mkdir(environment, old(storage), path)
    {
      var result := Mkdir(environment, storage, path);
      storage, r := result.0, result.1;
    }

    method Open(path: string) returns (r: OpenResult)
      modifies this
      ensures (storage, r) == Fopen(environment, old(storage), path)
    {
      var result := Fopen(environment, storage, path);
      storage, r := result.0, result.1;
    }

    method Write(handle: nat, data: seq<Byte>) returns (taken: nat)
      requires handle in storage.streams && storage.streams[handle] in storage.disk.files
      modifies this
      ensures (storage, taken) == Fwrite(environment, old(storage), handle, data)
    {
      var result := Fwrite(environment, storage, handle, data);
      storage, taken := result.0, result.1;
    }

    method Flush(handle: nat) returns (ok: bool)
      requires handle in storage.streams && storage.streams[handle] in storage.disk.files
      modifies this
      ensures (storage, ok) == Fflush(environment, old(storage), handle)
    {
      var result := Fflush(environment, storage, handle);
      storage, ok := result.0, result.1;
    }

    method Close(handle: nat) returns (ok: bool)
      requires handle in storage.streams && storage.streams[handle] in storage.disk.files
      modifies this
      ensures (storage, ok) == Fclose(environment, old(storage), handle)
    {
      var result := Fclose(environment, storage, handle);
      storage, ok := result.0, result.1;
    }

    method Move(from: string, to: string) returns (ok: bool)
      modifies this
      ensures (storage, ok) == Rename(environment, old(storage), from, to)
    {
      var result := Rename(environment, storage, from, to);
      storage, ok := result.0, result.1;
    }
  }
}
