/**
  The 64-byte command of an NVMe host, field by field, as far as the receive
  path looks at it: which way its data goes, where the data is, how much there
  is and which command it answers to.
 */
module HostCommands {
  import opened Common
  import opened Digest
  import opened Pdu
  import opened RecvMachine

  /** The low two bits of every opcode. */
  datatype Direction = NoData | ToTarget | ToHost | BothWays

  type FnCode = n: nat | n < 64

  /** SGL descriptor byte 15: a transport data block (type 5, subtype A) stays with the host until asked for. */
  type OtherSgl = b: byte | b != 0x5A

  datatype Sgl = Resident | Other(id: OtherSgl)

  /** `rest` gives the bytes that no other field does. */
  datatype Command = Command(fn: FnCode, dir: Direction, sgl: Sgl, length: u32, cid: u16, rest: Sqe)

  function Opcode(c: Command): byte {
    4 * c.fn + match c.dir { case NoData => 0 case ToTarget => 1 case ToHost => 2 case BothWays => 3 }
  }

  function SglId(s: Sgl): byte {
    match s
    case Resident => 0x5A
    case Other(id) => id
  }

  function Bytes(c: Command): Sqe {
    [Opcode(c), c.rest[1]] + ToLe16(c.cid) + c.rest[4..32] + ToLe32(c.length) + c.rest[36..39] + [SglId(c.sgl)] + c.rest[40..]
  }

  /** The host keeps the data of a write with it until the target asks. */
  predicate LeftResident(c: Command) {
    c.dir == ToTarget && c.sgl == Resident && c.length > 0
  }

  lemma FieldsReadBack(c: Command)
    ensures Bytes(c)[0] == Opcode(c) && Bytes(c)[39] == SglId(c.sgl)
    ensures Le16(Bytes(c), 2) == c.cid && Le32(Bytes(c), 32) == c.length
  {
    var s := Bytes(c);
    Le16RoundTrip([Opcode(c), c.rest[1]], c.cid, s[4..]);
    assert s == [Opcode(c), c.rest[1]] + ToLe16(c.cid) + s[4..];
    Le32RoundTrip(s[..32], c.length, s[36..]);
    assert s == s[..32] + ToLe32(c.length) + s[36..];
  }

  /** The target asks for data exactly of the commands whose host left it resident. */
  lemma CommandReadsBack(c: Command)
    ensures Cid(Bytes(c)) == c.cid && SglLength(Bytes(c)) == c.length
    ensures NeedsR2t(Bytes(c)) <==> LeftResident(c)
  {
    FieldsReadBack(c);
  }

  /** Any 64 bytes are such a command. */
  lemma EveryCommand(s: Sqe) returns (c: Command)
    ensures Bytes(c) == s
  {
    var dir := if s[0] % 4 == 0 then NoData else if s[0] % 4 == 1 then ToTarget else if s[0] % 4 == 2 then ToHost else BothWays;
    var sgl := if s[39] == 0x5A then Resident else Other(s[39]);
    c := Command(s[0] / 4, dir, sgl, Le32(s, 32), Le16(s, 2), s);
    assert ToLe16(Le16(s, 2)) == s[2..4];
    Le32Bytes(s, 32);
    assert Opcode(c) == s[0];
  }
}
