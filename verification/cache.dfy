/** The compiled-component cache of `torvyn-engine/src/cache.rs`. */
module Cache {
  import opened Wrappers

  /** What the cache uses of an engine, and the content hash. `deserialize` answers nothing for a blob that
      is corrupt or from an incompatible engine. */
  datatype Engine<!Binary(==), !Id(==), !Compiled(==), !Blob> = Engine(
    typeId: Binary -> Id,
    compile: Binary -> Option<Compiled>,
    serialize: Compiled -> Option<Blob>,
    deserialize: Blob -> Option<Compiled>)

  /** A call of `compile_or_get`, a `clear`, or something else changing the directory. Reading or writing a
      file may fail. */
  datatype Op<Binary, Id, Blob> =
    | CompileOrGet(bytes: Binary, readable: bool, writable: bool)
    | Clear
    | DiskChanges(disk: map<Id, Blob>)

  /** Distinct binaries among the known ones have distinct ids. */
  ghost predicate Distinguishes<Binary(!new), Id(!new), Compiled(!new), Blob(!new)>(
    engine: Engine<Binary, Id, Compiled, Blob>, known: set<Binary>)
  {
    forall a, b :: a in known && b in known && engine.typeId(a) == engine.typeId(b) ==> a == b
  }

  /** Deserialising gives back what was serialised or rejects it. */
  ghost predicate RoundTrips<Binary(!new), Id(!new), Compiled(!new), Blob(!new)>(engine: Engine<Binary, Id, Compiled, Blob>) {
    forall c :: engine.serialize(c).Some? ==>
      engine.deserialize(engine.serialize(c).value).None? || engine.deserialize(engine.serialize(c).value) == Some(c)
  }

  /** What the cache holds under the id of a known binary is that binary, compiled. */
  ghost predicate Faithful<Binary(!new), Id(!new), Compiled(!new), Blob(!new)>(
    engine: Engine<Binary, Id, Compiled, Blob>, known: set<Binary>, memory: map<Id, Compiled>)
  {
    forall b :: b in known && engine.typeId(b) in memory ==> engine.compile(b) == Some(memory[engine.typeId(b)])
  }

  /** A file under the id of a known binary is rejected or is that binary, compiled: stale and corrupt files
      are allowed, files of another component are not. */
  ghost predicate Honest<Binary(!new), Id(!new), Compiled(!new), Blob(!new)>(
    engine: Engine<Binary, Id, Compiled, Blob>, known: set<Binary>, disk: map<Id, Blob>)
  {
    forall b :: b in known && engine.typeId(b) in disk ==>
      var read := engine.deserialize(disk[engine.typeId(b)]);
      read.None? || engine.compile(b) == read
  }

  /** `attempts` counts the compilations of each binary since the last clear. */
  ghost predicate AtMostOnce<Binary(!new), Id(!new), Compiled(!new), Blob(!new)>(
    engine: Engine<Binary, Id, Compiled, Blob>, known: set<Binary>, memory: map<Id, Compiled>, attempts: map<Binary, nat>)
  {
    && (forall b :: b in attempts ==> b in known)
    && (forall b :: b in attempts && engine.compile(b).Some? ==> attempts[b] == 0 || (attempts[b] == 1 && engine.typeId(b) in memory))
  }

  /** Compiling the bytes without a cache. */
  function Afresh<Binary, Id, Compiled, Blob>(engine: Engine<Binary, Id, Compiled, Blob>, bytes: Binary): Option<(Id, Compiled)> {
    match engine.compile(bytes) case None => None case Some(c) => Some((engine.typeId(bytes), c))
  }

  /** How often the binary was asked for after the last clear. */
  function CallsSinceClear<Binary(==), Id, Blob>(ops: seq<Op<Binary, Id, Blob>>, b: Binary): nat {
    if ops == [] then 0
    else match ops[|ops| - 1]
      case Clear => 0
      case CompileOrGet(bytes, _, _) => CallsSinceClear(ops[..|ops| - 1], b) + if bytes == b then 1 else 0
      case DiskChanges(_) => CallsSinceClear(ops[..|ops| - 1], b)
  }

  lemma CallsStep<Binary(!new), Id, Blob>(ops: seq<Op<Binary, Id, Blob>>, i: nat)
    requires i < |ops|
    ensures forall b :: CallsSinceClear(ops[..i + 1], b) ==
              match ops[i]
              case Clear => 0
              case CompileOrGet(bytes, _, _) => CallsSinceClear(ops[..i], b) + if bytes == b then 1 else 0
              case DiskChanges(_) => CallsSinceClear(ops[..i], b)
  {
    var upTo := ops[..i + 1];
    assert upTo[..i] == ops[..i] && upTo[|upTo| - 1] == ops[i];
    forall b
      ensures CallsSinceClear(upTo, b) ==
              match upTo[i]
              case Clear => 0
              case CompileOrGet(bytes, _, _) => CallsSinceClear(upTo[..i], b) + if bytes == b then 1 else 0
              case DiskChanges(_) => CallsSinceClear(upTo[..i], b)
    {
    }
  }

  lemma NoCalls<Binary(!new), Id, Blob>(ops: seq<Op<Binary, Id, Blob>>)
    ensures forall b :: CallsSinceClear(ops[..0], b) == 0
  {
  }

  class CompiledComponentCache<!Binary(==,!new), !Id(==,!new), !Compiled(==,!new), !Blob(!new)> {
    const engine: Engine<Binary, Id, Compiled, Blob>
    const onDisk: bool
    var memory: map<Id, Compiled>
    var disk: map<Id, Blob>
    ghost const known: set<Binary>
    ghost var attempts: map<Binary, nat>

    ghost predicate Valid()
      reads this
    {
      && Distinguishes(engine, known) && RoundTrips(engine)
      && Faithful(engine, known, memory) && Honest(engine, known, disk)
      && AtMostOnce(engine, known, memory, attempts)
    }

    constructor (engine: Engine<Binary, Id, Compiled, Blob>, onDisk: bool, disk: map<Id, Blob>, ghost known: set<Binary>)
      requires Distinguishes(engine, known) && RoundTrips(engine) && Honest(engine, known, disk)
      ensures Valid() && this.engine == engine && this.known == known && memory == map[]
      ensures this.onDisk == onDisk && this.disk == disk
      ensures attempts == map b | b in known :: 0
    {
      this.engine, this.onDisk, this.disk, memory := engine, onDisk, disk, map[];
      this.known, attempts := known, map b | b in known :: 0;
    }

    /** What a readable file under the id gives. */
    predicate Readable(id: Id, readable: bool)
      reads this`disk
    {
      onDisk && id in disk && readable
    }

    function FromDisk(id: Id, readable: bool): Option<Compiled>
      reads this`disk
    {
      if Readable(id, readable) then engine.deserialize(disk[id]) else None
    }

    /** Memory first, then the disk; a file that is rejected is removed. */
    method Get(id: Id, readable: bool) returns (r: Option<Compiled>)
      requires Valid()
      modifies this`memory, this`disk
      ensures Valid()
      ensures old(memory).Keys <= memory.Keys
      ensures forall b :: b in known && engine.typeId(b) == id ==> r.None? || r == engine.compile(b)
      ensures r.Some? ==> id in memory
      ensures r.None? ==> id !in old(memory)
      ensures r == if id in old(memory) then Some(old(memory)[id]) else old(FromDisk(id, readable))
      ensures memory == if r.Some? then old(memory)[id := r.value] else old(memory)
      ensures disk == if r.None? && onDisk && readable then old(disk) - {id} else old(disk)
    {
      if id in memory {
        return Some(memory[id]);
      }
      if onDisk && id in disk && readable {
        var read := engine.deserialize(disk[id]);
        if read.Some? {
          memory := memory[id := read.value];
          return read;
        }
        disk := disk - {id};
      }
      assert id !in disk ==> disk - {id} == disk;
      return None;
    }

    /** Memory always, the disk when the component serialises and the write goes through. */
    method Insert(id: Id, compiled: Compiled, writable: bool)
      requires Valid()
      requires forall b :: b in known && engine.typeId(b) == id ==> engine.compile(b) == Some(compiled)
      modifies this`memory, this`disk
      ensures Valid()
      ensures memory == old(memory)[id := compiled]
      ensures disk ==
              if onDisk && writable && engine.serialize(compiled).Some? then old(disk)[id := engine.serialize(compiled).value] else old(disk)
    {
      memory := memory[id := compiled];
      if onDisk {
        var blob := engine.serialize(compiled);
        if blob.Some? && writable {
          disk := disk[id := blob.value];
        }
      }
    }

    method ClearMemory()
      requires Valid()
      modifies this`memory, this`attempts
      ensures Valid()
      ensures memory == map[] && attempts == map b | b in known :: 0
    {
      memory := map[];
      attempts := map b | b in known :: 0;
    }

    /** The answer is what compiling the bytes afresh would give. The engine is asked exactly when neither memory nor
        a readable file has it, and what it then gives is kept in both. */
    method CompileOrGet(bytes: Binary, readable: bool, writable: bool) returns (r: Option<(Id, Compiled)>)
      requires Valid() && bytes in known && attempts.Keys == known
      modifies this`memory, this`disk, this`attempts
      ensures Valid() && attempts.Keys == known
      ensures r == Afresh(engine, bytes)
      ensures forall b :: b in known && b != bytes ==> attempts[b] == old(attempts)[b]
      ensures engine.compile(bytes).None? ==> attempts[bytes] == old(attempts)[bytes] + 1
      ensures engine.compile(bytes).Some? ==>
                attempts[bytes] == old(attempts)[bytes] || (old(attempts)[bytes] == 0 && attempts[bytes] == 1)
      ensures var id := engine.typeId(bytes);
              attempts[bytes] == old(attempts)[bytes] <==> id in old(memory) || old(FromDisk(id, readable)).Some?
      ensures var id := engine.typeId(bytes);
              memory == if r.Some? then old(memory)[id := r.value.1] else old(memory)
      ensures var id := engine.typeId(bytes);
              disk ==
              if id in old(memory) || old(FromDisk(id, readable)).Some? then old(disk)
              else if r.Some? && onDisk && writable && engine.serialize(r.value.1).Some? then
                old(disk)[id := engine.serialize(r.value.1).value]
              else if onDisk && readable then old(disk) - {id}
              else old(disk)
    {
      var id := engine.typeId(bytes);
      var cached := Get(id, readable);
      if cached.Some? {
        return Some((id, cached.value));
      }
      var compiled := engine.compile(bytes);
      if compiled.Some? {
        Insert(id, compiled.value, writable);
      }
      attempts := attempts[bytes := attempts[bytes] + 1];
      return if compiled.Some? then Some((id, compiled.value)) else None;
    }

    /** A run of calls, clears and outside changes of the directory: every answer is the fresh one, and
        between clears nothing that compiles is compiled twice, while what does not compile is compiled at
        every call. */
    method RunAll(ops: seq<Op<Binary, Id, Blob>>) returns (answers: seq<Option<(Id, Compiled)>>)
      requires Valid() && attempts == map b | b in known :: 0
      requires forall op :: op in ops && op.CompileOrGet? ==> op.bytes in known
      requires forall op :: op in ops && op.DiskChanges? ==> Honest(engine, known, op.disk)
      modifies this
      ensures Valid() && |answers| == |ops|
      ensures forall i :: 0 <= i < |ops| && ops[i].CompileOrGet? ==>
                answers[i] == Afresh(engine, ops[i].bytes)
      ensures attempts.Keys == known
      ensures forall b :: b in known && engine.compile(b).Some? ==> attempts[b] <= 1
      ensures forall b :: b in known && engine.compile(b).None? ==> attempts[b] == CallsSinceClear(ops, b)
    {
      hide Distinguishes, RoundTrips, Faithful, Honest, Afresh, CallsSinceClear;
      NoCalls(ops);
      answers := [];
      for i := 0 to |ops|
        invariant Valid() && |answers| == i && attempts.Keys == known
        invariant forall k :: 0 <= k < i && ops[k].CompileOrGet? ==>
                    answers[k] == Afresh(engine, ops[k].bytes)
        invariant forall b :: b in known && engine.compile(b).None? ==> attempts[b] == CallsSinceClear(ops[..i], b)
      {
        CallsStep(ops, i);
        var answer: Option<(Id, Compiled)> := None;
        match ops[i] {
          case CompileOrGet(bytes, readable, writable) => answer := CompileOrGet(bytes, readable, writable);
          case Clear => ClearMemory();
          case DiskChanges(changed) => disk := changed;
        }
        answers := answers + [answer];
      }
      assert ops[..|ops|] == ops;
    }
  }

  /** What one cache compiled and could write, another one over the same directory does not compile again. */
  method SurvivesRestart<Binary(==,!new), Id(==,!new), Compiled(==,!new), Blob(!new)>(
    engine: Engine<Binary, Id, Compiled, Blob>, disk: map<Id, Blob>, bytes: Binary, ghost known: set<Binary>)
    returns (r: Option<(Id, Compiled)>, ghost compiled: nat)
    requires Distinguishes(engine, known) && RoundTrips(engine) && Honest(engine, known, disk) && bytes in known
    requires engine.compile(bytes).Some? && engine.serialize(engine.compile(bytes).value).Some?
    requires engine.deserialize(engine.serialize(engine.compile(bytes).value).value).Some?
    ensures r == Afresh(engine, bytes) && compiled == 0
  {
    hide Distinguishes, RoundTrips, Faithful, Honest, AtMostOnce;
    var first := new CompiledComponentCache(engine, true, disk, known);
    var id := engine.typeId(bytes);
    var answer := first.CompileOrGet(bytes, true, true);
    var second := new CompiledComponentCache(engine, true, first.disk, known);
    r := second.CompileOrGet(bytes, true, true);
    compiled := second.attempts[bytes];
  }
}
