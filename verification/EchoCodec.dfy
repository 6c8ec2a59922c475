/** The packing of an operation and a small integer, a file descriptor or a client number, into the 64-bit `user_data`
    of a submission: the operation in the upper 8 bits, the integer in the lower 56. */
module EchoCodec {
  import opened Bits
  import opened Words

  /** A C++ `int`. */
  type Int32 = x: int | -0x8000_0000 <= x < 0x8000_0000

  datatype Op = Accept | Recv | Send

  const OP_MASK: Word64 := 0xFF00_0000_0000_0000
  const FD_MASK: Word64 := 0x00FF_FFFF_FFFF_FFFF

  /** An operation code: a number below 256, shifted to the top. */
  function TopByte(c: nat): (w: Word64)
    requires c < 256
  {
    c * 0x0100_0000_0000_0000
  }

  function Code(op: Op): Word64 {
    TopByte(match op case Accept => 1 case Recv => 2 case Send => 3)
  }

  /** `static_cast<__u64>(fd)`: sign extension. */
  function Widen(fd: Int32): Word64 {
    if fd >= 0 then fd else 0x1_0000_0000_0000_0000 + fd
  }

  /** `static_cast<int>(w)`: the low 32 bits read as a two's complement number. */
  function Narrow(w: Word64): Int32 {
    var low := w % 0x1_0000_0000;
    if low < 0x8000_0000 then low else low - 0x1_0000_0000
  }

  function Pack(code: Word64, fd: Int32): (ud: Word64) {
    Pow2Words();
    OrBounds(code, Widen(fd), 64);
    Or(code, Widen(fd))
  }

  function Encode(op: Op, fd: Int32): (ud: Word64) {
    Pack(Code(op), fd)
  }

  function DecodeOp(ud: Word64): nat {
    And(ud, OP_MASK)
  }

  function DecodeFd(ud: Word64): Int32 {
    MaskIsRemainder(ud);
    Narrow(And(ud, FD_MASK))
  }

  lemma MaskIsRemainder(ud: Word64)
    ensures And(ud, FD_MASK) == Low(ud, 56) == ud % 0x100_0000_0000_0000
    ensures And(ud, OP_MASK) == ud - Low(ud, 56)
  {
    Pow2Words();
    AndLowMask(ud, 56);
    ClearLowBits(ud, 56, 64);
    LowIsRemainder(ud, 56);
  }

  lemma CodeHasNoLowBits(c: nat)
    requires c < 256
    ensures Low(TopByte(c), 56) == 0
  {
    Pow2Words();
    LowOfShifted(c, 56);
    hide Low, Pow2;
    assert TopByte(c) == Pow2(56) * c;
  }

  /** The integer always survives the round trip; the operation does exactly when the integer is not negative, because
      sign extension floods the upper 8 bits. */
  lemma PackRoundTrip(c: nat, fd: Int32)
    requires c < 255
    ensures DecodeFd(Pack(TopByte(c), fd)) == fd
    ensures DecodeOp(Pack(TopByte(c), fd)) == TopByte(c) <==> fd >= 0
  {
    DescriptorSurvives(c, fd);
    if fd >= 0 {
      OperationSurvives(c, fd);
    } else {
      OperationFlooded(c, fd);
    }
  }

  lemma RoundTrip(op: Op, fd: Int32)
    ensures DecodeFd(Encode(op, fd)) == fd
    ensures DecodeOp(Encode(op, fd)) == Code(op) <==> fd >= 0
  {
    PackRoundTrip(match op case Accept => 1 case Recv => 2 case Send => 3, fd);
  }

  lemma DescriptorSurvives(c: nat, fd: Int32)
    requires c < 256
    ensures DecodeFd(Pack(TopByte(c), fd)) == fd
  {
    var ud := Pack(TopByte(c), fd);
    MaskIsRemainder(ud);
    CodeHasNoLowBits(c);
    OrLowBits(TopByte(c), Widen(fd), 56);
    MaskIsRemainder(Widen(fd));
    NarrowLow(fd);
  }

  lemma NarrowLow(fd: Int32)
    ensures Narrow(Widen(fd) % 0x100_0000_0000_0000) == fd
  {
    if fd < 0 {
      assert Widen(fd) % 0x100_0000_0000_0000 == 0x100_0000_0000_0000 + fd;
      assert (0x100_0000_0000_0000 + fd) % 0x1_0000_0000 == 0x1_0000_0000 + fd;
    }
  }

  lemma OperationSurvives(c: nat, fd: Int32)
    requires fd >= 0 && c < 256
    ensures DecodeOp(Pack(TopByte(c), fd)) == TopByte(c)
  {
    Pow2Words();
    CodeHasNoLowBits(c);
    OrDisjoint(TopByte(c), fd, 56);
    OrLowBits(TopByte(c), fd, 56);
    LowOfSmall(fd, 56);
    MaskIsRemainder(Pack(TopByte(c), fd));
  }

  lemma OperationFlooded(c: nat, fd: Int32)
    requires fd < 0 && c < 255
    ensures DecodeOp(Pack(TopByte(c), fd)) != TopByte(c)
  {
    var ud := Pack(TopByte(c), fd);
    Pow2Words();
    OrBounds(TopByte(c), Widen(fd), 64);
    MaskIsRemainder(ud);
    assert ud % 0x100_0000_0000_0000 < 0x100_0000_0000_0000;
    assert DecodeOp(ud) > Widen(fd) - 0x100_0000_0000_0000;
  }

  /** On non-negative integers the packed words of different submissions are different. */
  lemma Injective(op1: Op, fd1: Int32, op2: Op, fd2: Int32)
    requires fd1 >= 0 && fd2 >= 0
    ensures Encode(op1, fd1) == Encode(op2, fd2) <==> op1 == op2 && fd1 == fd2
  {
    RoundTrip(op1, fd1);
    RoundTrip(op2, fd2);
  }
}
