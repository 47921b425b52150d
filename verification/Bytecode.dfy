/** The instruction set (src/bytecode.h) and the chunk layout. */
module Bytecode {
  import opened Values

  type byte = x: int | 0 <= x < 256

  const OP_NOP: byte := 0
  const OP_CONSTANT: byte := 1
  const OP_CONSTANT_LONG: byte := 2
  const OP_TRUE: byte := 3
  const OP_FALSE: byte := 4
  const OP_NIL: byte := 5
  const OP_POP: byte := 6
  const OP_DUP: byte := 7
  const OP_GET_LOCAL: byte := 8
  const OP_SET_LOCAL: byte := 9
  const OP_GET_GLOBAL: byte := 10
  const OP_SET_GLOBAL: byte := 11
  const OP_GET_FIELD: byte := 12
  const OP_SET_FIELD: byte := 13
  const OP_GET_INDEX: byte := 14
  const OP_SET_INDEX: byte := 15
  const OP_ADD: byte := 16
  const OP_SUB: byte := 17
  const OP_MUL: byte := 18
  const OP_DIV: byte := 19
  const OP_MOD: byte := 20
  const OP_NEGATE: byte := 21
  const OP_NOT: byte := 22
  const OP_EQUAL: byte := 23
  const OP_NOT_EQUAL: byte := 24
  const OP_GREATER: byte := 25
  const OP_GREATER_EQ: byte := 26
  const OP_LESS: byte := 27
  const OP_LESS_EQ: byte := 28
  const OP_AND: byte := 29
  const OP_OR: byte := 30
  const OP_JUMP: byte := 31
  const OP_JUMP_IF_FALSE: byte := 32
  const OP_JUMP_BACK: byte := 33
  const OP_CALL: byte := 34
  const OP_RETURN: byte := 35
  const OP_PRINT: byte := 36
  const OP_ARRAY: byte := 37
  const OP_MAP: byte := 38
  const OP_INVOKE: byte := 41
  const OP_AWAIT: byte := 48
  const OP_HALT: byte := 49

  function BinaryOpcode(op: BinOp): byte {
    match op
    case Add => OP_ADD
    case Sub => OP_SUB
    case Mul => OP_MUL
    case Div => OP_DIV
    case Mod => OP_MOD
    case Equal => OP_EQUAL
    case NotEqual => OP_NOT_EQUAL
    case Greater => OP_GREATER
    case GreaterEq => OP_GREATER_EQ
    case Less => OP_LESS
    case LessEq => OP_LESS_EQ
    case And => OP_AND
    case Or => OP_OR
  }

  function UnaryOpcode(op: UnOp): byte {
    match op
    case Negate => OP_NEGATE
    case Not => OP_NOT
  }

  predicate IsBinaryOpcode(b: byte) {
    OP_ADD <= b <= OP_MOD || OP_EQUAL <= b <= OP_OR
  }

  function BinaryOf(b: byte): BinOp
    requires IsBinaryOpcode(b)
  {
    if b == OP_ADD then Add
    else if b == OP_SUB then Sub
    else if b == OP_MUL then Mul
    else if b == OP_DIV then Div
    else if b == OP_MOD then Mod
    else if b == OP_EQUAL then Equal
    else if b == OP_NOT_EQUAL then NotEqual
    else if b == OP_GREATER then Greater
    else if b == OP_GREATER_EQ then GreaterEq
    else if b == OP_LESS then Less
    else if b == OP_LESS_EQ then LessEq
    else if b == OP_AND then And
    else Or
  }

  /** The two bytes of a jump operand, high byte first. */
  function Hi(n: nat): byte { n / 256 % 256 }
  function Lo(n: nat): byte { n % 256 }
  function Short(hi: byte, lo: byte): nat { hi * 256 + lo }

  lemma ShortOf(n: nat)
    ensures Short(Hi(n), Lo(n)) == n % 65536
    ensures Short(Hi(n), Lo(n)) == n <==> n <= 0xffff
  {
    assert n == n / 256 * 256 + n % 256;
    assert n / 256 == n / 256 / 256 * 256 + n / 256 % 256;
  }

  /** `g` sits in `code` from `pc` on. */
  predicate At(code: seq<byte>, pc: int, g: seq<byte>) {
    0 <= pc && pc + |g| <= |code| && code[pc..pc + |g|] == g
  }

  lemma AtEnds(code: seq<byte>, pc: int, g: seq<byte>)
    requires At(code, pc, g)
    ensures 0 <= pc && pc + |g| <= |code|
  {
  }

  lemma AtSplit(code: seq<byte>, pc: int, a: seq<byte>, b: seq<byte>)
    requires At(code, pc, a + b)
    ensures At(code, pc, a) && At(code, pc + |a|, b)
  {
    var s := code[pc..pc + |a + b|];
    assert s[..|a|] == a && s[|a|..] == b;
    assert code[pc..pc + |a|] == s[..|a|];
    assert code[pc + |a|..pc + |a| + |b|] == s[|a|..];
  }
}
