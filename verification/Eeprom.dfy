/** The write-back EEPROM of the ESP cores: a buffer over a data file, with a dirty flag. */
module Eeprom {
  import opened Common

  const ERASED: Byte := 0xFF

  datatype Core = Esp8266 | Esp32 | Other

  /** What an EEPROM object holds, and the data file behind it (None when there is no file). */
  datatype State = State(data: seq<Byte>, dirty: bool, file: Option<seq<Byte>>)

  /** What commit's file calls do: fopen fails, or some first bytes reach the file and the writing
      and closing report success or not. */
  datatype Saving = CannotOpen | Saved(n: nat, ok: bool)

  datatype Op =
    | Begin(size: nat, works: bool)
    | Write(address: nat, value: Byte)
    | Put(address: nat, bytes: seq<Byte>)
    | Commit(saving: Saving)
    | End(saving: Saving)

  /** A byte of the file, with everything behind its end erased. */
  function Cell(file: Option<seq<Byte>>, a: nat): Byte {
    if file.Some? && a < |file.value| then file.value[a] else ERASED
  }

  function Padded(file: Option<seq<Byte>>, size: nat): (d: seq<Byte>)
    ensures |d| == size && forall a :: 0 <= a < size ==> d[a] == Cell(file, a)
  {
    seq(size, a requires 0 <= a < size => Cell(file, a))
  }

  /** The size open() uses for the size asked for; 0 when it refuses. */
  function UsedSize(core: Core, size: nat): nat {
    match core
    case Esp8266 => ((if size > 4096 then 4096 else size) + 3) / 4 * 4
    case Esp32 => if size > 0xFFFF then 0 else size
    case Other => size
  }

  lemma UsedSizeIsEnough(core: Core, size: nat)
    ensures var u := UsedSize(core, size);
            match core
            case Esp8266 => u <= 4096 && u % 4 == 0 && (size <= 4096 ==> size <= u < size + 4)
                    && (size >= 4096 ==> u == 4096)
            case Esp32 => u <= 0xFFFF && (u > 0 ==> u == size) && (u == 0 <==> size == 0 || size > 0xFFFF)
            case Other => u == size
  {
  }

  ghost predicate Legal(st: State, op: Op) {
    match op
    case Begin(_, _) => true
    case Write(a, _) => a < |st.data|
    case Put(a, bytes) => a + |bytes| <= |st.data|
    case Commit(s) => s.Saved? ==> s.n <= |st.data| && (s.ok ==> s.n == |st.data|)
    case End(s) => s.Saved? ==> s.n <= |st.data| && (s.ok ==> s.n == |st.data|)
  }

  function Overwritten(data: seq<Byte>, a: nat, bytes: seq<Byte>): (d: seq<Byte>)
    requires a + |bytes| <= |data|
    ensures |d| == |data|
    ensures forall i :: 0 <= i < |d| ==> d[i] == if a <= i < a + |bytes| then bytes[i - a] else data[i]
  {
    data[..a] + bytes + data[a + |bytes|..]
  }

  function Committed(st: State, s: Saving): State
    requires Legal(st, Commit(s))
  {
    if |st.data| == 0 || !st.dirty || s.CannotOpen? then st
    else State(st.data, !s.ok, Some(st.data[..s.n]))
  }

  function After(core: Core, st: State, op: Op): State
    requires Legal(st, op)
  {
    match op
    case Begin(size, works) =>
      var u := UsedSize(core, size);
      if u == 0 || u == |st.data| || !works then st else State(Padded(st.file, u), false, st.file)
    case Write(a, v) => if st.data[a] == v then st else st.(data := st.data[a := v], dirty := true)
    case Put(a, bytes) =>
      if st.data[a..a + |bytes|] == bytes then st else st.(data := Overwritten(st.data, a, bytes), dirty := true)
    case Commit(s) => Committed(st, s)
    case End(s) => State([], false, Committed(st, s).file)
  }

  ghost predicate LegalRun(core: Core, file: Option<seq<Byte>>, ops: seq<Op>)
    decreases |ops|, 0
  {
    ops == [] || (LegalRun(core, file, ops[..|ops| - 1]) && Legal(Run(core, file, ops[..|ops| - 1]), ops[|ops| - 1]))
  }

  ghost function Run(core: Core, file: Option<seq<Byte>>, ops: seq<Op>): State
    requires LegalRun(core, file, ops)
    decreases |ops|, 1
  {
    if ops == [] then State([], false, file)
    else After(core, Run(core, file, ops[..|ops| - 1]), ops[|ops| - 1])
  }

  // ---------------------------------------------------------------- the buffer and the file

  /** A clean buffer is the beginning of the file. */
  ghost predicate InSync(st: State) {
    (|st.data| == 0 ==> !st.dirty) && (!st.dirty ==> st.data == Padded(st.file, |st.data|))
  }

  lemma StepKeepsInSync(core: Core, st: State, op: Op)
    requires Legal(st, op) && InSync(st)
    ensures InSync(After(core, st, op))
  {
  }

  /** A clean buffer always shows the file, padded with 0xFF, also when file calls fail. */
  lemma {:induction false} CleanBufferShowsFile(core: Core, file: Option<seq<Byte>>, ops: seq<Op>)
    requires LegalRun(core, file, ops)
    ensures var st := Run(core, file, ops);
            && InSync(st)
            && (!st.dirty ==> forall a :: 0 <= a < |st.data| ==>
                  st.data[a] == if st.file.Some? && a < |st.file.value| then st.file.value[a] else 0xFF)
    decreases |ops|
  {
    if ops != [] {
      CleanBufferShowsFile(core, file, ops[..|ops| - 1]);
      StepKeepsInSync(core, Run(core, file, ops[..|ops| - 1]), ops[|ops| - 1]);
    }
  }

  /** Writing what is already there changes nothing, not even the dirty flag; anything else does. */
  lemma WritingTheSameIsFree(core: Core, st: State, op: Op)
    requires (op.Write? || op.Put?) && Legal(st, op)
    ensures After(core, st, op) == st
            <==> forall a :: 0 <= a < |st.data| && Writes(op, a) ==> st.data[a] == Written(op, a)
    ensures After(core, st, op) != st ==> After(core, st, op).dirty
  {
    if op.Put? {
      var part := st.data[op.address..op.address + |op.bytes|];
      if part != op.bytes {
        var i :| 0 <= i < |part| && part[i] != op.bytes[i];
        assert Writes(op, op.address + i);
      } else {
        assert forall a :: 0 <= a < |st.data| && Writes(op, a) ==> st.data[a] == part[a - op.address];
      }
    } else {
      assert Writes(op, op.address);
    }
  }

  /** Had a clean commit been written all the same, no byte below the size would differ; the rest of
      the file would be cut off, which shows just when something is there. */
  lemma SkippedCommitIsUnobservable(st: State)
    requires InSync(st) && !st.dirty && |st.data| > 0
    ensures forall a :: 0 <= a < |st.data| ==> Cell(Some(st.data), a) == Cell(st.file, a)
    ensures (forall a :: 0 <= a ==> Cell(Some(st.data), a) == Cell(st.file, a))
            <==> (forall a :: |st.data| <= a ==> Cell(st.file, a) == ERASED)
  {
  }

  // ---------------------------------------------------------------- what is remembered

  /** What address a reads now, or would read after a begin() that reaches it. */
  function View(st: State, a: nat): Byte {
    if a < |st.data| then st.data[a] else Cell(st.file, a)
  }

  /** Address a was written by op. */
  predicate Writes(op: Op, a: nat) {
    (op.Write? && op.address == a) || (op.Put? && op.address <= a < op.address + |op.bytes|)
  }

  function Written(op: Op, a: nat): Byte
    requires Writes(op, a)
  {
    if op.Write? then op.value else op.bytes[a - op.address]
  }

  predicate Discards(core: Core, st: State, op: Op) {
    op.Begin? && op.works && UsedSize(core, op.size) !in {0, |st.data|}
  }

  predicate Saves(st: State, op: Op) {
    (op.Commit? || op.End?) && st.dirty
  }

  predicate SavingWorks(op: Op) {
    op.Commit? || op.End? ==> op.saving.Saved? && op.saving.ok
  }

  /** What one operation does to what address a reads, when the file can be written: a write stores;
      a begin() with another size goes back to the file; saving keeps the bytes of the buffer and
      erases those behind it; nothing else changes anything. */
  lemma ViewAfter(core: Core, st: State, op: Op, a: nat)
    requires Legal(st, op) && InSync(st) && SavingWorks(op)
    ensures View(After(core, st, op), a)
            == if Writes(op, a) then Written(op, a)
               else if Discards(core, st, op) then Cell(st.file, a)
               else if Saves(st, op) && |st.data| <= a then 0xFF
               else View(st, a)
  {
  }

  /** begin() with another size shows the file: it shows the same as before just when the buffer did. */
  lemma ResizeKeepsViewIff(core: Core, st: State, op: Op)
    requires Legal(st, op) && InSync(st) && Discards(core, st, op)
    ensures (forall a :: 0 <= a ==> View(After(core, st, op), a) == View(st, a))
            <==> st.data == Padded(st.file, |st.data|)
    ensures !st.dirty ==> st.data == Padded(st.file, |st.data|)
  {
    assert SavingWorks(op);
    forall a: nat ensures View(After(core, st, op), a) == Cell(st.file, a) {
      ViewAfter(core, st, op, a);
    }
    if forall a :: 0 <= a ==> View(After(core, st, op), a) == View(st, a) {
      forall a | 0 <= a < |st.data| ensures st.data[a] == Cell(st.file, a) {
        assert View(After(core, st, op), a) == View(st, a);
      }
    }
  }

  /** Every address reads the same after the operation as before it. */
  ghost predicate KeepsView(core: Core, st: State, op: Op)
    requires Legal(st, op)
  {
    forall a: nat :: View(After(core, st, op), a) == View(st, a)
  }

  /** No begin() with another size shows, when the dirty flag is as given. */
  ghost predicate ResizesAreHarmless(dirty: bool) {
    forall core, st, op :: Legal(st, op) && InSync(st) && st.dirty == dirty && Discards(core, st, op)
      ==> KeepsView(core, st, op)
  }

  /** begin() with another size is harmless just when the EEPROM is not dirty. */
  lemma ResizeIsHarmlessIff(dirty: bool)
    ensures ResizesAreHarmless(dirty) <==> !dirty
  {
    if dirty {
      var st, op := State([0], true, None), Begin(2, true);
      assert Legal(st, op) && InSync(st) && Discards(Other, st, op);
      assert View(After(Other, st, op), 0) == ERASED && View(st, 0) == 0;
      assert !KeepsView(Other, st, op);
    } else {
      forall core, st, op | Legal(st, op) && InSync(st) && !st.dirty && Discards(core, st, op)
        ensures KeepsView(core, st, op)
      {
        ResizeKeepsViewIff(core, st, op);
      }
    }
  }

  /** A run that looks after address a: saving works, no begin() with another size while there is
      something to commit, and nothing is saved while the EEPROM ends at or before a. */
  ghost predicate Keeps(core: Core, file: Option<seq<Byte>>, ops: seq<Op>, a: nat)
    requires LegalRun(core, file, ops)
    decreases |ops|
  {
    ops == [] ||
    (var st, op := Run(core, file, ops[..|ops| - 1]), ops[|ops| - 1];
     && Keeps(core, file, ops[..|ops| - 1], a) && SavingWorks(op)
     && !(Discards(core, st, op) && st.dirty) && !(Saves(st, op) && |st.data| <= a))
  }

  function LastWritten(file: Option<seq<Byte>>, ops: seq<Op>, a: nat): Byte {
    if ops == [] then Cell(file, a)
    else if Writes(ops[|ops| - 1], a) then Written(ops[|ops| - 1], a)
    else LastWritten(file, ops[..|ops| - 1], a)
  }

  /** Such a run, through any number of end() and begin() with whatever sizes, shows at address a the
      byte last written there, or the byte of the file it began with. */
  lemma {:induction false} RemembersLastWritten(core: Core, file: Option<seq<Byte>>, ops: seq<Op>, a: nat)
    requires LegalRun(core, file, ops) && Keeps(core, file, ops, a)
    ensures View(Run(core, file, ops), a) == LastWritten(file, ops, a)
    decreases |ops|
  {
    if ops != [] {
      var front, op := ops[..|ops| - 1], ops[|ops| - 1];
      var st := Run(core, file, front);
      RemembersLastWritten(core, file, front, a);
      CleanBufferShowsFile(core, file, front);
      ViewAfter(core, st, op, a);
      hide After;
    }
  }

  class EpoxyEeprom {
    const core: Core
    var data: array?<Byte>
    var size: nat
    var dirty: bool
    /** The data file. */
    var file: Option<seq<Byte>>

    ghost predicate Valid()
      reads this, data
    {
      && (data == null ==> size == 0) && (data != null ==> data.Length == size > 0)
      && InSync(Value())
    }

    ghost function Value(): State
      reads this, data
    {
      State(if data == null then [] else data[..], dirty, file)
    }

    constructor (core: Core, file: Option<seq<Byte>>)
      ensures Valid() && Value() == State([], false, file) && this.core == core
    {
      this.core, this.file := core, file;
      data, size, dirty := null, 0, false;
    }

    /** begin(): `allocates` and `readable` say whether the memory is there and an existing file can
        be read. */
    method Open(size0: nat, allocates: bool, readable: bool) returns (ok: bool)
      requires Valid()
      modifies this
      ensures Valid() && Value() == After(core, old(Value()), Begin(size0, allocates && (readable || file.None?)))
      ensures ok <==> UsedSize(core, size0) != 0
                      && (UsedSize(core, size0) == old(size) || (allocates && (readable || file.None?)))
      ensures ok ==> size == UsedSize(core, size0)
      ensures data == old(data) || fresh(data)
    {
      var size := size0;
      if core == Esp8266 {
        if size > 4096 { size := 4096; }
        size := (size + 3) / 4 * 4;
      }
      if size == 0 { return false; }
      if core == Esp32 {
        if size > 0xFFFF { return false; }
      }
      if size == this.size { return true; }
      if !allocates { return false; }
      var data := new Byte[size](_ => ERASED);
      match file {
        case Some(contents) =>
          if !readable { return false; }
          forall i | 0 <= i < size && i < |contents| {
            data[i] := contents[i];
          }
        case None =>
      }
      this.data := data;
      this.size := size;
      dirty := false;
      assert data[..] == Padded(file, size);
      ok := true;
    }

    method Read(address: nat) returns (v: Byte)
      requires Valid() && address < size
      ensures v == View(Value(), address)
    {
      v := data[address];
    }

    method WriteByte(address: nat, val: Byte)
      requires Valid() && address < size
      modifies `dirty, data
      ensures Valid() && Value() == After(core, old(Value()), Write(address, val))
    {
      var prev := data[address];
      if val != prev {
        data[address] := val;
        dirty := true;
      }
    }

    method Get(address: nat, n: nat) returns (bytes: seq<Byte>)
      requires Valid() && data != null && address + n <= size
      ensures |bytes| == n && forall i :: 0 <= i < n ==> bytes[i] == View(Value(), address + i)
    {
      bytes := data[address..address + n];
    }

    method PutBytes(address: nat, bytes: seq<Byte>)
      requires Valid() && data != null && address + |bytes| <= size
      modifies `dirty, data
      ensures Valid() && Value() == After(core, old(Value()), Put(address, bytes))
    {
      if data[address..address + |bytes|] != bytes {
        dirty := true;
        forall i | 0 <= i < |bytes| {
          data[address + i] := bytes[i];
        }
        assert data[..] == Overwritten(old(data[..]), address, bytes);
      }
    }

    method Commit(s: Saving) returns (ok: bool)
      requires Valid() && Legal(Value(), Op.Commit(s))
      modifies `dirty, `file
      ensures Valid() && Value() == After(core, old(Value()), Op.Commit(s))
      ensures ok <==> !dirty
    {
      if size == 0 || !dirty || data == null { return true; }
      if s.CannotOpen? { return false; }
      file := Some(data[..s.n]);
      if s.ok {
        dirty := false;
        assert data[..s.n] == data[..];
      }
      ok := s.ok;
    }

    method Close()
      requires Valid()
      modifies `data, `size, `dirty
      ensures Valid() && Value() == State([], false, old(file))
    {
      if data != null {
        data := null;
      }
      size := 0;
      dirty := false;
    }

    /** end(): closes the EEPROM even when it could not be saved. */
    method EndUse(s: Saving) returns (saved: bool)
      requires Valid() && Legal(Value(), Op.Commit(s))
      modifies `data, `size, `dirty, `file
      ensures Valid() && Value() == After(core, old(Value()), End(s))
      ensures saved <==> !After(core, old(Value()), Op.Commit(s)).dirty
    {
      saved := Commit(s);
      Close();
    }
  }
}
