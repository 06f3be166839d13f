/** The gateway's request handler.  The register map and the registry behind it are parameters. */
module ModbusGateway {
  import opened Bytes
  import opened Common
  import opened ModbusPdu

  datatype Kind = Coil | DiscreteInput | Holding | Input

  datatype Exception = NoException | IllegalFunction | IllegalDataAddress | IllegalDataValue | DeviceFailure

  datatype Register = Register(id: nat, readOnly: bool)

  datatype CoilMapping = CoilMapping(fromActuator: bool, station: string, slot: int,
                                     onValue: bv8, offValue: bv8, readOnly: bool)

  datatype Write = Write(register: Register, value: Word)

  datatype Command = Command(station: string, slot: int, command: bv8)

  /** What the handler sees of the rest of the controller. */
  datatype World = World(
    registers: (Kind, Word) -> Option<Register>,
    coils: (Kind, Word) -> Option<CoilMapping>,
    reading: Register -> Word,
    accepts: (seq<Write>, Write) -> bool,
    hasRegistry: bool,
    actuators: (string, int) -> Option<bv8>)

  /** Address arithmetic wraps at sixteen bits. */
  function AddressAt(start: Word, i: nat): Word {
    ((start as int + i) % 0x1_0000) as Word
  }

  function RegisterValue(w: World, kind: Kind, address: Word): Word {
    match w.registers(kind, address)
    case None => 0
    case Some(r) => w.reading(r)
  }

  function RegisterValues(w: World, kind: Kind, start: Word, n: nat): (vs: seq<Word>)
    ensures |vs| == n
  {
    seq(n, i requires 0 <= i < n => RegisterValue(w, kind, AddressAt(start, i)))
  }

  predicate CoilOn(w: World, kind: Kind, address: Word) {
    match w.coils(kind, address)
    case None => false
    case Some(c) => w.hasRegistry && c.fromActuator && w.actuators(c.station, c.slot) == Some(c.onValue)
  }

  /** The writes applied so far and the answer. */
  datatype Outcome = Outcome(log: seq<Write>, answer: Exception)

  function WriteOne(w: World, log: seq<Write>, address: Word, v: Word): Outcome {
    match w.registers(Holding, address)
    case None => Outcome(log, IllegalDataAddress)
    case Some(r) =>
      if r.readOnly then Outcome(log, IllegalFunction)
      else if !w.accepts(log, Write(r, v)) then Outcome(log, DeviceFailure)
      else Outcome(log + [Write(r, v)], NoException)
  }

  /** Writes are applied in order up to the first that fails. */
  function WriteAll(w: World, log: seq<Write>, start: Word, vs: seq<Word>): Outcome {
    if vs == [] then Outcome(log, NoException)
    else
      var n := |vs| - 1;
      var r := WriteAll(w, log, start, vs[..n]);
      if r.answer != NoException then r else WriteOne(w, r.log, AddressAt(start, n), vs[n])
  }

  /** Write `m` of the log, counted from `base`, is its value to the holding register at its address, which can be
      written and takes it at that point. */
  predicate AppliedAt(w: World, log: seq<Write>, base: nat, start: Word, vs: seq<Word>, m: nat)
    requires base <= m < |log| <= base + |vs|
  {
    && w.registers(Holding, ((start as int + m - base) % 0x1_0000) as Word) == Some(log[m].register)
    && !log[m].register.readOnly && log[m].value == vs[m - base] && w.accepts(log[..m], log[m])
  }

  /** Why a value is not written to an address: no register, one that cannot be written, or one that does not take it. */
  predicate Refused(w: World, log: seq<Write>, address: int, v: Word, answer: Exception)
    requires 0 <= address < 0x1_0000
  {
    var mapping := w.registers(Holding, address as Word);
    || (mapping.None? && answer == IllegalDataAddress)
    || (mapping.Some? && mapping.value.readOnly && answer == IllegalFunction)
    || (mapping.Some? && !mapping.value.readOnly && !w.accepts(log, Write(mapping.value, v)) && answer == DeviceFailure)
  }

  /**
   * A write of many registers applies a prefix of them, value by value and address by address; it
   * answers without exception exactly when it applied them all, and otherwise with the exception of
   * the first write it could not apply.
   */
  lemma {:induction false} WritesAreAPrefix(w: World, log: seq<Write>, start: Word, vs: seq<Word>)
    ensures var r := WriteAll(w, log, start, vs);
            && log <= r.log && |r.log| <= |log| + |vs|
            && (forall m: nat | |log| <= m < |r.log| :: AppliedAt(w, r.log, |log|, start, vs, m))
            && (r.answer == NoException <==> |r.log| == |log| + |vs|)
            && (r.answer != NoException ==>
                  var k := |r.log| - |log|;
                  k < |vs| && Refused(w, r.log, (start as int + k) % 0x1_0000, vs[k], r.answer))
  {
    if vs != [] {
      var n := |vs| - 1;
      var front := vs[..n];
      WritesAreAPrefix(w, log, start, front);
      var p := WriteAll(w, log, start, front);
      var r := WriteAll(w, log, start, vs);
      assert log <= r.log;
      forall m: nat | |log| <= m < |r.log| ensures AppliedAt(w, r.log, |log|, start, vs, m) {
        if m < |p.log| {
          assert AppliedAt(w, p.log, |log|, start, front, m);
          assert r.log[..m] == p.log[..m];
        } else {
          assert r.log[..m] == p.log;
        }
      }
      if p.answer == NoException && r.answer != NoException {
        OneRefused(w, p.log, AddressAt(start, n), vs[n]);
      }
    }
  }

  lemma OneRefused(w: World, log: seq<Write>, address: Word, v: Word)
    requires WriteOne(w, log, address, v).answer != NoException
    ensures WriteOne(w, log, address, v).log == log && Refused(w, log, address as int, v, WriteOne(w, log, address, v).answer)
  {
  }

  class Gateway {
    const world: World
    var totalRequests: nat
    var writes: seq<Write>
    var commands: seq<Command>

    constructor (world: World)
      ensures this.world == world && totalRequests == 0 && writes == [] && commands == []
    {
      this.world := world;
      totalRequests, writes, commands := 0, [], [];
    }

    method ReadRegisters(kind: Kind, start: Word, quantity: Word, response: Pdu) returns (answer: Exception)
      requires response.Valid()
      modifies response`dataLen, response.data
      ensures quantity as int > MAX_READ_REGISTERS ==> answer == IllegalDataValue && response.data[..] == old(response.data[..])
      ensures quantity as int <= MAX_READ_REGISTERS ==>
                && answer == NoException && response.dataLen == 1 + 2 * quantity as int
                && response.data[..] == PutAll(old(response.data[..])[0 := Byte(2 * quantity as int)], 1,
                                               RegisterValues(world, kind, start, quantity as int))
    {
      if quantity as int > MAX_READ_REGISTERS {
        return IllegalDataValue;
      }
      var n := quantity as int;
      response.data[0] := Byte(2 * n);
      response.dataLen := 1 + 2 * n;
      ghost var front := response.data[..];
      ghost var all := RegisterValues(world, kind, start, n);
      assert front == old(response.data[..])[0 := Byte(2 * n)];
      assert all[..0] == [];
      for i := 0 to n
        invariant response.dataLen == 1 + 2 * n
        invariant response.data[..] == PutAll(front, 1, all[..i])
      {
        var value := 0;
        var mapping := world.registers(kind, AddressAt(start, i));
        if mapping.Some? {
          value := world.reading(mapping.value);
        }
        assert value == all[i];
        PutNext(front, 1, all, i);
        response.Set16(1 + 2 * i, value);
      }
      assert all[..n] == all;
      answer := NoException;
    }

    method WriteRegister(address: Word, value: Word) returns (answer: Exception)
      modifies this`writes
      ensures Outcome(writes, answer) == WriteOne(world, old(writes), address, value)
    {
      var mapping := world.registers(Holding, address);
      if mapping.None? {
        return IllegalDataAddress;
      }
      if mapping.value.readOnly {
        return IllegalFunction;
      }
      if !world.accepts(writes, Write(mapping.value, value)) {
        return DeviceFailure;
      }
      writes := writes + [Write(mapping.value, value)];
      answer := NoException;
    }

    /** Apply the values of a request in order, up to the first that fails. */
    method ApplyWrites(start: Word, n: nat, request: Pdu) returns (answer: Exception)
      requires request.Valid() && n <= MAX_WRITE_REGISTERS
      modifies this`writes
      ensures Outcome(writes, answer) == WriteAll(world, old(writes), start, GetAll(request.data[..], 5, n))
    {
      ghost var all := GetAll(request.data[..], 5, n);
      assert all[..0] == [];
      for i := 0 to n
        invariant Outcome(writes, NoException) == WriteAll(world, old(writes), start, all[..i])
      {
        var value := Join(request.data[5 + i * 2], request.data[5 + i * 2 + 1]);
        assert all[..i + 1][..i] == all[..i] && all[i] == value;
        answer := WriteRegister(AddressAt(start, i), value);
        if answer != NoException {
          FailedWrite(world, old(writes), start, all, i + 1);
          return;
        }
      }
      assert all[..n] == all;
      answer := NoException;
    }

    method WriteRegisters(start: Word, quantity: Word, request: Pdu, response: Pdu) returns (answer: Exception)
      requires request.Valid() && response.Valid() && request.data != response.data
      modifies this`writes, response`dataLen, response.data
      ensures quantity as int > MAX_WRITE_REGISTERS ==> answer == IllegalDataValue && writes == old(writes)
      ensures quantity as int <= MAX_WRITE_REGISTERS ==>
                Outcome(writes, answer)
                == WriteAll(world, old(writes), start, GetAll(request.data[..], 5, quantity as int))
      ensures answer == NoException ==>
                response.dataLen == 4 && response.data[..] == ReadRequest(old(response.data[..]), start, quantity)
    {
      if quantity as int > MAX_WRITE_REGISTERS {
        return IllegalDataValue;
      }
      answer := ApplyWrites(start, quantity as int, request);
      if answer != NoException {
        return;
      }
      response.Set16(0, start);
      response.Set16(2, quantity);
      response.dataLen := 4;
    }

    /** Put coil `i` into its bit. */
    method PackCoil(kind: Kind, start: Word, i: nat, ghost count: nat, response: Pdu)
      requires response.Valid() && PackedTo(world, kind, start, i, count, response.data[..]) && i / 8 < count
      modifies response.data
      ensures PackedTo(world, kind, start, i + 1, count, response.data[..])
    {
      ghost var before := response.data[..];
      if CoilOn(world, kind, AddressAt(start, i)) {
        response.data[1 + i / 8] := response.data[1 + i / 8] | Mask(i % 8);
        assert response.data[..] == before[1 + i / 8 := before[1 + i / 8] | Mask(i % 8)];
      }
      PackNext(world, kind, start, i, count, before, response.data[..]);
    }

    method ReadCoils(kind: Kind, start: Word, quantity: Word, response: Pdu) returns (answer: Exception)
      requires response.Valid()
      modifies response`dataLen, response.data
      ensures quantity as int > MAX_READ_BITS ==> answer == IllegalDataValue && response.data[..] == old(response.data[..])
      ensures quantity as int <= MAX_READ_BITS ==>
                && answer == NoException && Packed(world, kind, start, quantity as int, response.data[..])
                && response.dataLen == 1 + (quantity as int + 7) / 8
    {
      if quantity as int > MAX_READ_BITS {
        return IllegalDataValue;
      }
      var n := quantity as int;
      var count := (n + 7) / 8;
      response.data[0] := Byte(count);
      response.Clear(1, count);
      response.dataLen := 1 + count;
      for i := 0 to n
        invariant response.dataLen == 1 + count
        invariant PackedTo(world, kind, start, i, count, response.data[..])
      {
        PackCoil(kind, start, i, count, response);
      }
      answer := NoException;
    }

    method EchoRequest(request: Pdu, response: Pdu)
      requires request.Valid() && response.Valid() && request.data != response.data
      modifies response`dataLen, response.data
      ensures response.dataLen == 4
      ensures response.data[..] == request.data[..4] + old(response.data[4..])
    {
      response.data[0], response.data[1] := request.data[0], request.data[1];
      response.data[2], response.data[3] := request.data[2], request.data[3];
      response.dataLen := 4;
    }

    method WriteCoil(address: Word, value: Word) returns (answer: Exception)
      modifies this`commands
      ensures (answer, commands) == CoilWritten(world, old(commands), address, value)
      ensures answer == IllegalDataAddress <==> world.coils(Coil, address).None?
      ensures answer == IllegalFunction <==> world.coils(Coil, address).Some? && world.coils(Coil, address).value.readOnly
      ensures commands == old(commands) || (answer == NoException && |commands| == |old(commands)| + 1)
      ensures commands != old(commands) <==> CoilDrivable(world, address)
    {
      var mapping := world.coils(Coil, address);
      if mapping.None? {
        return IllegalDataAddress;
      }
      var c := mapping.value;
      if c.readOnly {
        return IllegalFunction;
      }
      if world.hasRegistry && c.fromActuator {
        commands := commands + [Command(c.station, c.slot, if value == 0xFF00 then c.onValue else c.offValue)];
      }
      answer := NoException;
    }

    /** The two words every request starts with. */
    ghost predicate Asks(request: Pdu, start: Word, quantity: Word)
      reads request, request.data
    {
      request.Valid() && Get16(request.data[..], 0) == start && Get16(request.data[..], 2) == quantity
    }

    method HandleRead(code: bv8, start: Word, quantity: Word, response: Pdu) returns (answer: Exception)
      requires response.Valid() && IsRead(code)
      modifies response`dataLen, response.data
      ensures ReadAnswered(world, code, start, quantity, old(response.data[..]), answer, response.dataLen, response.data[..])
    {
      if code == READ_HOLDING_REGISTERS || code == READ_INPUT_REGISTERS {
        answer := ReadRegisters(RegisterKind(code), start, quantity, response);
      } else {
        answer := ReadCoils(CoilKind(code), start, quantity, response);
      }
    }

    method HandleWrite(code: bv8, start: Word, quantity: Word, request: Pdu, response: Pdu) returns (answer: Exception)
      requires response.Valid() && Asks(request, start, quantity) && request.data != response.data && IsWrite(code)
      modifies this`writes, this`commands, response`dataLen, response.data
      ensures (Outcome(writes, answer), commands)
              == Written(world, old(writes), old(commands), code, start, quantity, request.data[..])
      ensures answer == NoException ==> response.dataLen == 4 && response.data[..4] == request.data[..4]
    {
      if code == WRITE_MULTIPLE_REGISTERS {
        answer := WriteRegisters(start, quantity, request, response);
        if answer == NoException {
          EchoedWords(request.data[..], response.data[..], start, quantity);
        }
        return;
      }
      if code == WRITE_SINGLE_REGISTER {
        answer := WriteRegister(start, quantity);
      } else {
        answer := WriteCoil(start, quantity);
      }
      if answer == NoException {
        EchoRequest(request, response);
      }
    }

    /** One request: reads change nothing behind the gateway, writes only what they name. */
    method Handle(request: Pdu, response: Pdu) returns (answer: Exception, ghost start: Word, ghost quantity: Word)
      requires request.Valid() && response.Valid() && request != response && request.data != response.data
      modifies this, response, response.data
      ensures Asks(request, start, quantity)
      ensures totalRequests == old(totalRequests) + 1 && response.functionCode == request.functionCode
      ensures IsRead(request.functionCode) ==>
                ReadAnswered(world, request.functionCode, start, quantity, old(response.data[..]),
                             answer, response.dataLen, response.data[..])
      ensures IsWrite(request.functionCode) ==>
                (Outcome(writes, answer), commands)
                == Written(world, old(writes), old(commands), request.functionCode, start, quantity, request.data[..])
      ensures IsWrite(request.functionCode) && answer == NoException ==>
                response.dataLen == 4 && response.data[..4] == request.data[..4]
      ensures !IsWrite(request.functionCode) ==> writes == old(writes) && commands == old(commands)
      ensures !IsRead(request.functionCode) && !IsWrite(request.functionCode) ==> answer == IllegalFunction
    {
      totalRequests := totalRequests + 1;
      var first := Join(request.data[0], request.data[1]);
      var second := Join(request.data[2], request.data[3]);
      start, quantity := first, second;
      response.functionCode := request.functionCode;
      if IsRead(request.functionCode) {
        answer := HandleRead(request.functionCode, first, second, response);
      } else if IsWrite(request.functionCode) {
        answer := HandleWrite(request.functionCode, first, second, request, response);
      } else {
        answer := IllegalFunction;
      }
    }
  }

  predicate IsRead(code: bv8) {
    || code == READ_COILS || code == READ_DISCRETE_INPUTS
    || code == READ_HOLDING_REGISTERS || code == READ_INPUT_REGISTERS
  }

  predicate IsWrite(code: bv8) {
    code == WRITE_SINGLE_COIL || code == WRITE_SINGLE_REGISTER || code == WRITE_MULTIPLE_REGISTERS
  }

  /** The answer to a read request. */
  ghost predicate ReadAnswered(w: World, code: bv8, start: Word, quantity: Word, was: seq<bv8>,
                               answer: Exception, dataLen: nat, d: seq<bv8>)
    requires |was| == PDU_DATA && IsRead(code)
  {
    var n := quantity as int;
    if code == READ_HOLDING_REGISTERS || code == READ_INPUT_REGISTERS then
      if n > MAX_READ_REGISTERS then answer == IllegalDataValue
      else && answer == NoException && dataLen == 1 + 2 * n
           && d == PutAll(was[0 := Byte(2 * n)], 1, RegisterValues(w, RegisterKind(code), start, n))
    else
      if n > MAX_READ_BITS then answer == IllegalDataValue
      else answer == NoException && dataLen == 1 + (n + 7) / 8 && Packed(w, CoilKind(code), start, n, d)
  }

  /** What a write request does behind the gateway. */
  function Written(w: World, writes: seq<Write>, commands: seq<Command>, code: bv8,
                   start: Word, quantity: Word, d: seq<bv8>): (Outcome, seq<Command>)
    requires |d| == PDU_DATA && IsWrite(code)
  {
    if code == WRITE_SINGLE_REGISTER then (WriteOne(w, writes, start, quantity), commands)
    else if code == WRITE_MULTIPLE_REGISTERS then
      if quantity as int > MAX_WRITE_REGISTERS then (Outcome(writes, IllegalDataValue), commands)
      else (WriteAll(w, writes, start, GetAll(d, 5, quantity as int)), commands)
    else
      var (answer, cs) := CoilWritten(w, commands, start, quantity);
      (Outcome(writes, answer), cs)
  }

  function RegisterKind(code: bv8): Kind {
    if code == READ_HOLDING_REGISTERS then Holding else Input
  }

  function CoilKind(code: bv8): Kind {
    if code == READ_COILS then Coil else DiscreteInput
  }

  function CoilWritten(w: World, commands: seq<Command>, address: Word, value: Word): (Exception, seq<Command>) {
    match w.coils(Coil, address)
    case None => (IllegalDataAddress, commands)
    case Some(c) =>
      if c.readOnly then (IllegalFunction, commands)
      else if w.hasRegistry && c.fromActuator
      then (NoException, commands + [Command(c.station, c.slot, if value == 0xFF00 then c.onValue else c.offValue)])
      else (NoException, commands)
  }

  /** The coil stands for an actuator that may be written. */
  predicate CoilDrivable(w: World, address: Word) {
    var mapping := w.coils(Coil, address);
    mapping.Some? && !mapping.value.readOnly && w.hasRegistry && mapping.value.fromActuator
  }

  /** The world once an actuator has carried out a command. */
  function Carried(w: World, c: Command): World {
    w.(actuators := (station, slot) => if station == c.station && slot == c.slot then Some(c.command) else w.actuators(station, slot))
  }

  /**
   * Writing a coil and reading it back, once the actuator has carried out the command: the coil reads
   * on exactly when 0xFF00 was written, and no coil of another actuator changes.
   */
  lemma CoilReadsBack(w: World, commands: seq<Command>, address: Word, value: Word)
    requires CoilDrivable(w, address) && w.coils(Coil, address).value.onValue != w.coils(Coil, address).value.offValue
    ensures var cs := CoilWritten(w, commands, address, value).1;
            && |cs| == |commands| + 1 && commands <= cs
            && var after := Carried(w, cs[|commands|]);
               && (CoilOn(after, Coil, address) <==> value == 0xFF00)
               && forall kind: Kind, other: Word | w.coils(kind, other).Some?
                    && (w.coils(kind, other).value.station, w.coils(kind, other).value.slot)
                       != (w.coils(Coil, address).value.station, w.coils(Coil, address).value.slot)
                    :: CoilOn(after, kind, other) == CoilOn(w, kind, other)
  {
  }

  /** A coil reads on exactly when it is mapped to an actuator whose command is the one that means on. */
  lemma CoilOnIff(w: World, kind: Kind, address: Word)
    ensures CoilOn(w, kind, address) <==>
            && w.hasRegistry && w.coils(kind, address).Some? && w.coils(kind, address).value.fromActuator
            && var c := w.coils(kind, address).value;
               w.actuators(c.station, c.slot).Some? && w.actuators(c.station, c.slot).value == c.onValue
  {
  }

  /** Function code 6 writes one holding register or is refused; no command goes out. */
  lemma SingleRegisterWritten(w: World, writes: seq<Write>, commands: seq<Command>, start: Word, value: Word, d: seq<bv8>)
    requires |d| == PDU_DATA
    ensures IsWrite(0x06)
    ensures var (o, cs) := Written(w, writes, commands, 0x06, start, value, d);
            && cs == commands
            && if o.answer == NoException then
                 |o.log| == |writes| + 1 && writes <= o.log && AppliedAt(w, o.log, |writes|, start, [value], |writes|)
               else o.log == writes && Refused(w, writes, start as int, value, o.answer)
  {
  }

  /** Function code 16 writes a prefix of the values in the request, at most 123; no command goes out. */
  lemma ManyRegistersWritten(w: World, writes: seq<Write>, commands: seq<Command>, start: Word, quantity: Word, d: seq<bv8>)
    requires |d| == PDU_DATA
    ensures IsWrite(0x10)
    ensures var (o, cs) := Written(w, writes, commands, 0x10, start, quantity, d);
            && cs == commands
            && if quantity as int > 123 then o == Outcome(writes, IllegalDataValue)
               else PrefixWritten(w, writes, start, GetAll(d, 5, quantity as int), o)
  {
    if quantity as int <= 123 {
      WritesAreAPrefix(w, writes, start, GetAll(d, 5, quantity as int));
    }
  }

  /** The values are written in order, all of them if there is no exception, else up to the first that is refused. */
  predicate PrefixWritten(w: World, writes: seq<Write>, start: Word, vs: seq<Word>, o: Outcome)
    ensures PrefixWritten(w, writes, start, vs, o) ==> writes <= o.log
  {
    && writes <= o.log && |o.log| <= |writes| + |vs|
    && (o.answer == NoException <==> |o.log| == |writes| + |vs|)
    && (forall m: nat | |writes| <= m < |o.log| :: AppliedAt(w, o.log, |writes|, start, vs, m))
    && (o.answer != NoException ==>
          var k := |o.log| - |writes|;
          Refused(w, o.log, (start as int + k) % 0x1_0000, vs[k], o.answer))
  }

  /** Function code 5 writes one coil; no register is written. */
  lemma SingleCoilWritten(w: World, writes: seq<Write>, commands: seq<Command>, start: Word, value: Word, d: seq<bv8>)
    requires |d| == PDU_DATA
    ensures IsWrite(0x05)
    ensures var (o, cs) := Written(w, writes, commands, 0x05, start, value, d);
            && o.log == writes
            && (o.answer == IllegalDataAddress <==> w.coils(Coil, start).None?)
            && (o.answer == IllegalFunction <==> w.coils(Coil, start).Some? && w.coils(Coil, start).value.readOnly)
            && (o.answer == NoException <==> w.coils(Coil, start).Some? && !w.coils(Coil, start).value.readOnly)
            && cs == if CoilDrivable(w, start) then
                       var c := w.coils(Coil, start).value;
                       commands + [Command(c.station, c.slot, if value == 0xFF00 then c.onValue else c.offValue)]
                     else commands
  {
  }

  /** Writing the two words back restores the bytes they were read from. */
  lemma EchoedWords(d: seq<bv8>, e: seq<bv8>, start: Word, quantity: Word)
    requires |d| == |e| == PDU_DATA && Get16(d, 0) == start && Get16(d, 2) == quantity
    requires e[0] == High(start) && e[1] == Low(start) && e[2] == High(quantity) && e[3] == Low(quantity)
    ensures e[..4] == d[..4]
  {
    BytesOfWord(d[0], d[1]);
    BytesOfWord(d[2], d[3]);
  }

  /** Bit `k` of payload byte `b` holds coil `8 * b + k` when that is among the first `i`. */
  predicate PackedAt(w: World, kind: Kind, start: Word, i: nat, d: seq<bv8>, b: nat, k: nat)
    requires 1 + b < |d| && k < 8
  {
    Bit(d[1 + b], k) <==> 8 * b + k < i && CoilOn(w, kind, AddressAt(start, 8 * b + k))
  }

  ghost predicate PackedTo(w: World, kind: Kind, start: Word, i: nat, count: nat, d: seq<bv8>)
    ensures PackedTo(w, kind, start, i, count, d) ==> |d| == PDU_DATA && count < PDU_DATA && d[0] == Byte(count)
  {
    && |d| == PDU_DATA && count < PDU_DATA && count < 256
    && d[0] == Byte(count)
    && forall b: nat, k: nat | b < count && k < 8 :: PackedAt(w, kind, start, i, d, b, k)
  }

  /** A coil answer: coil `i` at bit `i mod 8` of byte `1 + i / 8`, every other bit zero. */
  ghost predicate Packed(w: World, kind: Kind, start: Word, n: nat, d: seq<bv8>) {
    PackedTo(w, kind, start, n, (n + 7) / 8, d)
  }

  lemma PackNext(w: World, kind: Kind, start: Word, i: nat, count: nat, d: seq<bv8>, e: seq<bv8>)
    requires PackedTo(w, kind, start, i, count, d) && i / 8 < count
    requires e == if CoilOn(w, kind, AddressAt(start, i)) then d[1 + i / 8 := d[1 + i / 8] | Mask(i % 8)] else d
    ensures PackedTo(w, kind, start, i + 1, count, e)
  {
    var next := i + 1;
    forall b: nat, k: nat | b < count && k < 8 ensures PackedAt(w, kind, start, next, e, b, k) {
      assert PackedAt(w, kind, start, i, d, b, k);
      assert 8 * b + k == i <==> b == i / 8 && k == i % 8;
      if b == i / 8 {
        OrBit(d[1 + b], i % 8, k);
      }
    }
  }

  /** A failed write ends the run: the rest of the values changes nothing. */
  lemma {:induction false} FailedWrite(w: World, log: seq<Write>, start: Word, vs: seq<Word>, i: nat)
    requires i <= |vs| && WriteAll(w, log, start, vs[..i]).answer != NoException
    ensures WriteAll(w, log, start, vs) == WriteAll(w, log, start, vs[..i])
    decreases |vs|
  {
    if i < |vs| {
      var front := vs[..|vs| - 1];
      assert front[..i] == vs[..i];
      FailedWrite(w, log, start, front, i);
    } else {
      assert vs[..i] == vs;
    }
  }

  lemma CountByte(b: bv8, n: nat)
    requires n < 256 && b == Byte(n)
    ensures b as nat == n
  {
    ByteValue(n);
  }

  /** Words cut out of a data unit are the words at the shifted offset. */
  lemma CutWords(d: seq<bv8>, n: nat)
    requires 1 + 2 * n <= |d|
    ensures GetAll(d[1..1 + 2 * n], 0, n) == GetAll(d, 1, n)
  {
    var payload := d[1..1 + 2 * n];
    forall i | 0 <= i < n ensures GetAll(payload, 0, n)[i] == GetAll(d, 1, n)[i] {
      assert payload[2 * i] == d[1 + 2 * i] && payload[2 * i + 1] == d[1 + 2 * i + 1];
    }
  }

  /** The payload of a register answer holds the values, in order. */
  lemma RegistersDecoded(was: seq<bv8>, vs: seq<Word>, d: seq<bv8>)
    requires |was| == PDU_DATA && |vs| <= MAX_READ_REGISTERS
    requires d == PutAll(was[0 := Byte(2 * |vs|)], 1, vs)
    ensures d[0] as nat == 2 * |vs|
    ensures GetAll(d[1..1 + 2 * |vs|], 0, |vs|) == vs
  {
    var front := was[0 := Byte(2 * |vs|)];
    PutAllFrame(front, 1, vs, 0);
    CountByte(d[0], 2 * |vs|);
    PutThenGet(front, 1, vs);
    CutWords(d, |vs|);
  }

  /** Coil `i` of the answer is bit `i mod 8` of payload byte `i / 8`; the bits beyond the last coil are zero. */
  ghost predicate CoilsIn(w: World, kind: Kind, start: Word, n: nat, payload: seq<bv8>) {
    && |payload| == (n + 7) / 8
    && forall b: nat, k: nat | b < |payload| && k < 8 ::
         Bit(payload[b], k) <==> 8 * b + k < n && CoilOn(w, kind, AddressAt(start, 8 * b + k))
  }

  lemma CoilsDecoded(w: World, kind: Kind, start: Word, n: nat, d: seq<bv8>)
    requires n <= MAX_READ_BITS && Packed(w, kind, start, n, d)
    ensures CoilsIn(w, kind, start, n, d[1..1 + (n + 7) / 8])
  {
    var count := (n + 7) / 8;
    var payload := d[1..1 + count];
    forall b: nat, k: nat | b < |payload| && k < 8
      ensures Bit(payload[b], k) <==> 8 * b + k < n && CoilOn(w, kind, AddressAt(start, 8 * b + k))
    {
      assert PackedAt(w, kind, start, n, d, b, k);
    }
  }

  /** End to end: values sent in a write request are applied in order by the gateway that receives it. */
  method SendRegisters(gateway: Gateway, start: Word, vs: seq<Word>) returns (sent: bool, answer: Exception)
    modifies gateway
    ensures sent <==> |vs| <= MAX_WRITE_REGISTERS
    ensures sent ==> Outcome(gateway.writes, answer) == WriteAll(gateway.world, old(gateway.writes), start, vs)
    ensures !sent ==> gateway.writes == old(gateway.writes)
    ensures gateway.commands == old(gateway.commands)
  {
    var request := new Pdu();
    var response := new Pdu();
    ghost var blank := request.data[..];
    sent := request.BuildWriteMultipleRegisters(start, vs);
    answer := NoException;
    if sent {
      WriteRequestRoundTrip(blank, start, vs);
      ghost var first, second;
      answer, first, second := gateway.Handle(request, response);
    }
  }

  /** A read request and its answer. */
  method Fetch(gateway: Gateway, code: bv8, start: Word, quantity: Word) returns (answer: Exception, response: Pdu, ghost was: seq<bv8>)
    requires IsRead(code)
    modifies gateway
    ensures fresh(response) && fresh(response.data) && response.Valid() && response.functionCode == code && |was| == PDU_DATA
    ensures ReadAnswered(gateway.world, code, start, quantity, was, answer, response.dataLen, response.data[..])
    ensures gateway.writes == old(gateway.writes) && gateway.commands == old(gateway.commands)
  {
    var request := new Pdu();
    response := new Pdu();
    ReadRequestRoundTrip(request.data[..], start, quantity);
    request.BuildReadRequest(code, start, quantity);
    was := response.data[..];
    ghost var first, second;
    answer, first, second := gateway.Handle(request, response);
  }

  /** The value of a register, or 0 where there is none. */
  predicate Shows(w: World, kind: Kind, address: int, v: Word)
    requires 0 <= address < 0x1_0000
  {
    var mapping := w.registers(kind, address as Word);
    v == if mapping.Some? then w.reading(mapping.value) else 0
  }

  lemma ValuesShown(w: World, kind: Kind, start: Word, vs: seq<Word>)
    requires vs == RegisterValues(w, kind, start, |vs|)
    ensures forall i: nat | i < |vs| :: Shows(w, kind, (start as int + i) % 0x1_0000, vs[i])
  {
  }

  /** End to end: the registers asked for in a read request come back in order. */
  method FetchRegisters(gateway: Gateway, code: bv8, start: Word, quantity: Word) returns (ok: bool, vs: seq<Word>)
    requires code == 0x03 || code == 0x04
    modifies gateway
    ensures ok <==> quantity as int <= 125
    ensures ok ==> |vs| == quantity as int && forall i: nat | i < quantity as int ::
              Shows(gateway.world, if code == 0x03 then Holding else Input, (start as int + i) % 0x1_0000, vs[i])
    ensures gateway.writes == old(gateway.writes) && gateway.commands == old(gateway.commands)
  {
    var answer, response, was := Fetch(gateway, code, start, quantity);
    if answer != NoException {
      return false, [];
    }
    RegistersDecoded(was, RegisterValues(gateway.world, RegisterKind(code), start, quantity as int), response.data[..]);
    var payload;
    ok, payload := response.ParseReadResponse();
    vs := GetAll(payload, 0, quantity as int);
    ValuesShown(gateway.world, RegisterKind(code), start, vs);
  }

  /** End to end: the coils asked for in a read request come back one per bit. */
  method FetchCoils(gateway: Gateway, code: bv8, start: Word, quantity: Word) returns (ok: bool, payload: seq<bv8>)
    requires code == 0x01 || code == 0x02
    modifies gateway
    ensures ok <==> quantity as int <= 2000
    ensures ok ==> CoilsIn(gateway.world, if code == 0x01 then Coil else DiscreteInput, start, quantity as int, payload)
    ensures gateway.writes == old(gateway.writes) && gateway.commands == old(gateway.commands)
  {
    var answer, response, was := Fetch(gateway, code, start, quantity);
    if answer != NoException {
      return false, [];
    }
    CoilsDecoded(gateway.world, CoilKind(code), start, quantity as int, response.data[..]);
    CountByte(response.data[0], (quantity as int + 7) / 8);
    ok, payload := response.ParseReadResponse();
  }
}
