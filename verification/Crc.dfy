/** crc16.c: cyclic checksums a nibble, a byte or two bytes at a time, against division bit by bit.

    The reference is the shift register: `Shift` and `ShiftB` move it by one bit and take off the polynomial when
    the bit that leaves is set; `Serial` and its kin let a byte in and shift eight times. Three kinds of shortcut
    are compared with it: an integer product standing for a product without carries, which is right because the
    bits of the polynomial are further apart than the factor is long; a table of sixteen remainders; and the
    folding forms for one and two bytes.

    All of these maps are linear over exclusive or. A proof splits the register into parts, shows for each part
    alone, where few bits are unknown, that shortcut and register agree, and adds the parts up. The small lemmas
    are single facts about shifts and masks; everything above them treats `Xor`, `Xor16` and the shifts as unknown
    functions of which only those facts are used, which is why they have names and are hidden.
 */
module Crc {
  import opened Bits

  // ----- one bit at a time

  function Xor16(a: bv16, b: bv16): bv16 { a ^ b }

  function Up(c: bv16): bv16 { c << 1 }
  function Down(c: bv16): bv16 { c >> 1 }
  function Down32(c: bv32): bv32 { c >> 1 }
  predicate Sign(c: bv16) { c & 0x8000 != 0 }
  predicate Odd(c: bv16) { c & 1 == 1 }
  predicate Odd32(c: bv32) { c & 1 == 1 }
  function Fold(c: bv16): bv16 { if Sign(c) then 0x1021 else 0 }
  function FoldB(poly: bv16, c: bv16): bv16 { if Odd(c) then poly else 0 }
  function FoldB32(poly: bv32, c: bv32): bv32 { if Odd32(c) then poly else 0 }

  /** Most significant bit first, modulo x^16 + x^12 + x^5 + 1. */
  function Shift(c: bv16): bv16 { Xor16(Up(c), Fold(c)) }

  /** Least significant bit first, modulo a reflected polynomial of degree 16 or 32. */
  function ShiftB(poly: bv16, c: bv16): bv16 { Xor16(Down(c), FoldB(poly, c)) }
  function ShiftB32(poly: bv32, c: bv32): bv32 { Xor(Down32(c), FoldB32(poly, c)) }

  function Shift4(c: bv16): bv16 { Shift(Shift(Shift(Shift(c)))) }
  function Shift4B(poly: bv16, c: bv16): bv16 { ShiftB(poly, ShiftB(poly, ShiftB(poly, ShiftB(poly, c)))) }
  function Shift4B32(poly: bv32, c: bv32): bv32 {
    ShiftB32(poly, ShiftB32(poly, ShiftB32(poly, ShiftB32(poly, c))))
  }

  /** A byte enters at the end the shifts start from, and eight bits are divided out. */
  function Serial(c: bv16, v: bv8): bv16 { Shift4(Shift4(Xor16(c, Top(v)))) }
  function SerialB(poly: bv16, c: bv16, v: bv8): bv16 { Shift4B(poly, Shift4B(poly, Xor16(c, Word(v)))) }
  function SerialB32(poly: bv32, c: bv32, v: bv8): bv32 { Shift4B32(poly, Shift4B32(poly, Xor(c, Wide(v)))) }

  const POLY_CCITT: bv16 := 0x8408
  const POLY_MODBUS: bv16 := 0xA001
  const POLY32B: bv32 := 0xEDB8_8320

  // ----- the code, a nibble at a time

  /** One half of CRC16_update: an integer product stands for the product without carries. */
  function Nibble(c: bv16, n: bv8): bv16 { (c << 4) ^ (0x1021 * (((c >> 12) ^ (n as bv16)) & 0xF)) }

  /** One half of CRC16B_update. */
  function NibbleB(c: bv16, n: bv8): bv16 { (c >> 4) ^ (0x1081 * ((c ^ (n as bv16)) & 0xF)) }

  function Table32(i: bv32): bv32 {
    if i == 0 then 0x00000000 else if i == 1 then 0x1DB71064 else if i == 2 then 0x3B6E20C8
    else if i == 3 then 0x26D930AC else if i == 4 then 0x76DC4190 else if i == 5 then 0x6B6B51F4
    else if i == 6 then 0x4DB26158 else if i == 7 then 0x5005713C else if i == 8 then 0xEDB88320
    else if i == 9 then 0xF00F9344 else if i == 10 then 0xD6D6A3E8 else if i == 11 then 0xCB61B38C
    else if i == 12 then 0x9B64C2B0 else if i == 13 then 0x86D3D2D4 else if i == 14 then 0xA00AE278
    else 0xBDBDF21C
  }

  function TableM(i: bv16): bv16 {
    if i == 0 then 0x0000 else if i == 1 then 0xCC01 else if i == 2 then 0xD801 else if i == 3 then 0x1400
    else if i == 4 then 0xF001 else if i == 5 then 0x3C00 else if i == 6 then 0x2800 else if i == 7 then 0xE401
    else if i == 8 then 0xA001 else if i == 9 then 0x6C00 else if i == 10 then 0x7800 else if i == 11 then 0xB401
    else if i == 12 then 0x5000 else if i == 13 then 0x9C01 else if i == 14 then 0x8801 else 0x4400
  }

  function NibbleM(c: bv16, n: bv8): bv16 { (c >> 4) ^ TableM((c ^ (n as bv16)) & 0xF) }
  function Pick32(c: bv32, n: bv8): bv32 { (c ^ (n as bv32)) & 0xF }
  function Drop4(c: bv32): bv32 { c >> 4 }
  function Nibble32(c: bv32, n: bv8): bv32 { Xor(Drop4(c), Table32(Pick32(c, n))) }

  function Crc16Update(crc: bv16, val: bv8): bv16 { Nibble(Nibble(crc, val >> 4), val) }
  function Crc16BUpdate(crc: bv16, val: bv8): bv16 { NibbleB(NibbleB(crc, val), val >> 4) }
  function ModbusUpdate(crc: bv16, val: bv8): bv16 { NibbleM(NibbleM(crc, val), val >> 4) }
  function Crc32BUpdate(crc: bv32, val: bv8): bv32 { Nibble32(Nibble32(crc, val), val >> 4) }

  // ----- shifting is linear

  lemma Xor16Commutes(a: bv16, b: bv16) ensures Xor16(a, b) == Xor16(b, a) {}
  lemma Xor16Associates(a: bv16, b: bv16, c: bv16) ensures Xor16(Xor16(a, b), c) == Xor16(a, Xor16(b, c)) {}

  lemma Swap(a: bv16, b: bv16, c: bv16, d: bv16)
    ensures Xor16(Xor16(a, b), Xor16(c, d)) == Xor16(Xor16(a, c), Xor16(b, d))
  {
    hide Xor16;
    Xor16Associates(a, b, Xor16(c, d)); Xor16Associates(b, c, d); Xor16Commutes(b, c);
    Xor16Associates(c, b, d); Xor16Associates(a, c, Xor16(b, d));
  }

  lemma Swap32(a: bv32, b: bv32, c: bv32, d: bv32)
    ensures Xor(Xor(a, b), Xor(c, d)) == Xor(Xor(a, c), Xor(b, d))
  {
    hide Xor;
    XorAssociates(a, b, Xor(c, d)); XorAssociates(b, c, d); XorCommutes(b, c);
    XorAssociates(c, b, d); XorAssociates(a, c, Xor(b, d));
  }

  lemma UpLinear(a: bv16, b: bv16) ensures Up(Xor16(a, b)) == Xor16(Up(a), Up(b)) {}
  lemma DownLinear(a: bv16, b: bv16) ensures Down(Xor16(a, b)) == Xor16(Down(a), Down(b)) {}
  lemma Down32Linear(a: bv32, b: bv32) ensures Down32(Xor(a, b)) == Xor(Down32(a), Down32(b)) {}

  // The bit that leaves is the exclusive or of the two that would.
  lemma FirstOut(a: bv16, b: bv16) ensures Sign(Xor16(a, b)) == (Sign(a) != Sign(b)) {}
  lemma LastOut(a: bv16, b: bv16) ensures Odd(Xor16(a, b)) == (Odd(a) != Odd(b)) {}
  lemma LastOut32(a: bv32, b: bv32) ensures Odd32(Xor(a, b)) == (Odd32(a) != Odd32(b)) {}
  lemma Xor16Units(p: bv16) ensures Xor16(p, 0) == p && Xor16(0, p) == p && Xor16(p, p) == 0 {}
  lemma XorUnits(p: bv32) ensures Xor(p, 0) == p && Xor(0, p) == p && Xor(p, p) == 0 {}

  lemma FoldLinear(a: bv16, b: bv16)
    ensures Fold(Xor16(a, b)) == Xor16(Fold(a), Fold(b))
  {
    hide Xor16, Sign;
    FirstOut(a, b); Xor16Units(0x1021); Xor16Units(0);
  }

  lemma FoldBLinear(p: bv16, a: bv16, b: bv16)
    ensures FoldB(p, Xor16(a, b)) == Xor16(FoldB(p, a), FoldB(p, b))
  {
    hide Xor16, Odd;
    LastOut(a, b); Xor16Units(p); Xor16Units(0);
  }

  lemma FoldB32Linear(p: bv32, a: bv32, b: bv32)
    ensures FoldB32(p, Xor(a, b)) == Xor(FoldB32(p, a), FoldB32(p, b))
  {
    hide Xor, Odd32;
    LastOut32(a, b); XorUnits(p); XorUnits(0);
  }

  lemma ShiftLinear(a: bv16, b: bv16)
    ensures Shift(Xor16(a, b)) == Xor16(Shift(a), Shift(b))
  {
    hide Xor16, Up, Fold;
    UpLinear(a, b); FoldLinear(a, b);
    Swap(Up(a), Up(b), Fold(a), Fold(b));
  }

  lemma ShiftBLinear(p: bv16, a: bv16, b: bv16)
    ensures ShiftB(p, Xor16(a, b)) == Xor16(ShiftB(p, a), ShiftB(p, b))
  {
    hide Xor16, Down, FoldB;
    DownLinear(a, b); FoldBLinear(p, a, b);
    Swap(Down(a), Down(b), FoldB(p, a), FoldB(p, b));
  }

  lemma ShiftB32Linear(p: bv32, a: bv32, b: bv32)
    ensures ShiftB32(p, Xor(a, b)) == Xor(ShiftB32(p, a), ShiftB32(p, b))
  {
    hide Xor, Down32, FoldB32;
    Down32Linear(a, b); FoldB32Linear(p, a, b);
    Swap32(Down32(a), Down32(b), FoldB32(p, a), FoldB32(p, b));
  }

  lemma Shift4Linear(a: bv16, b: bv16)
    ensures Shift4(Xor16(a, b)) == Xor16(Shift4(a), Shift4(b))
  {
    hide Shift, Xor16;
    ShiftLinear(a, b); ShiftLinear(Shift(a), Shift(b));
    ShiftLinear(Shift(Shift(a)), Shift(Shift(b))); ShiftLinear(Shift(Shift(Shift(a))), Shift(Shift(Shift(b))));
  }

  lemma Shift4BLinear(p: bv16, a: bv16, b: bv16)
    ensures Shift4B(p, Xor16(a, b)) == Xor16(Shift4B(p, a), Shift4B(p, b))
  {
    hide ShiftB, Xor16;
    var a1, b1 := ShiftB(p, a), ShiftB(p, b);
    var a2, b2 := ShiftB(p, a1), ShiftB(p, b1);
    ShiftBLinear(p, a, b); ShiftBLinear(p, a1, b1); ShiftBLinear(p, a2, b2);
    ShiftBLinear(p, ShiftB(p, a2), ShiftB(p, b2));
  }

  lemma Shift4B32Linear(p: bv32, a: bv32, b: bv32)
    ensures Shift4B32(p, Xor(a, b)) == Xor(Shift4B32(p, a), Shift4B32(p, b))
  {
    hide ShiftB32, Xor;
    var a1, b1 := ShiftB32(p, a), ShiftB32(p, b);
    var a2, b2 := ShiftB32(p, a1), ShiftB32(p, b1);
    ShiftB32Linear(p, a, b); ShiftB32Linear(p, a1, b1); ShiftB32Linear(p, a2, b2);
    ShiftB32Linear(p, ShiftB32(p, a2), ShiftB32(p, b2));
  }

  // ----- a nibble of the code is four shifts

  function High4(n: bv8): bv16 { ((n & 0xF) as bv16) << 12 }
  function Low4(n: bv8): bv16 { (n & 0xF) as bv16 }
  function Wide4(n: bv8): bv32 { (n & 0xF) as bv32 }
  function Mid4(n: bv8): bv16 { Low4(n) << 4 }
  function Third4(n: bv8): bv16 { Low4(n) << 8 }
  function WideMid4(n: bv8): bv32 { Wide4(n) << 4 }
  function Wide(v: bv8): bv32 { v as bv32 }
  function Word(v: bv8): bv16 { v as bv16 }
  function Top(v: bv8): bv16 { (v as bv16) << 8 }

  // Twelve bits are only moved, the top four only fold.
  lemma Shift4Moves(c: bv16) requires c <= 0xFFF ensures Shift4(c) == c << 4 {}
  lemma Shift4Folds(h: bv16) requires h <= 0xF ensures Shift4(h << 12) == 0x1021 * h {}

  lemma Parts(c: bv16) ensures Xor16(c & 0xFFF, (c >> 12) << 12) == c {}
  lemma MovedPart(c: bv16) ensures (c & 0xFFF) << 4 == c << 4 {}

  lemma Shift4Is(c: bv16)
    ensures Shift4(c) == Xor16(c << 4, 0x1021 * (c >> 12))
  {
    Parts(c); MovedPart(c);
    Shift4Moves(c & 0xFFF); Shift4Folds(c >> 12);
    Shift4Linear(c & 0xFFF, (c >> 12) << 12);
    hide Shift4, Xor16;
  }

  lemma TopIn(c: bv16, n: bv8) ensures Xor16(c, High4(n)) >> 12 == ((c >> 12) ^ (n as bv16)) & 0xF {}
  lemma TopOut(c: bv16, n: bv8) ensures Xor16(c, High4(n)) << 4 == c << 4 {}

  lemma NibbleIsShift(c: bv16, n: bv8)
    ensures Nibble(c, n) == Shift4(Xor16(c, High4(n)))
  {
    Shift4Is(Xor16(c, High4(n)));
    TopIn(c, n);
    TopOut(c, n);
    hide Shift4, High4;
  }

  // The other way round twelve bits are only moved as well, and the lowest four only fold.
  function Upper12(c: bv16): bv16 { c & 0xFFF0 }
  function Least4(c: bv16): bv16 { c & 0xF }
  function Drop4B(c: bv16): bv16 { c >> 4 }

  lemma PartsB(c: bv16) ensures Xor16(Upper12(c), Least4(c)) == c {}
  lemma Upper12Moves(p: bv16, c: bv16) ensures Shift4B(p, Upper12(c)) == Drop4B(c) {}
  lemma Least4Folds(n: bv16) requires n <= 0xF ensures Shift4B(POLY_CCITT, n) == 0x1081 * n {}
  lemma Least4FoldsM(n: bv16) requires n <= 0xF ensures Shift4B(POLY_MODBUS, n) == TableM(n) {}
  lemma Least4Small(c: bv16) ensures Least4(c) <= 0xF {}
  lemma Low4In(c: bv16, n: bv8) ensures Least4(Xor16(c, Low4(n))) == (c ^ (n as bv16)) & 0xF {}
  lemma Low4Out(c: bv16, n: bv8) ensures Drop4B(Xor16(c, Low4(n))) == Drop4B(c) {}

  lemma Shift4BIs(p: bv16, c: bv16)
    ensures Shift4B(p, c) == Xor16(Drop4B(c), Shift4B(p, Least4(c)))
  {
    hide Shift4B, Upper12, Least4, Drop4B, Xor16;
    PartsB(c);
    Upper12Moves(p, c);
    Shift4BLinear(p, Upper12(c), Least4(c));
  }

  lemma NibbleBIsShift(c: bv16, n: bv8)
    ensures NibbleB(c, n) == Shift4B(POLY_CCITT, Xor16(c, Low4(n)))
  {
    hide Shift4B, Least4, Low4;
    var d := Xor16(c, Low4(n));
    Shift4BIs(POLY_CCITT, d); Least4Small(d);
    Low4In(c, n); Low4Out(c, n);
    Least4Folds(Least4(d));
  }

  lemma NibbleMIsShift(c: bv16, n: bv8)
    ensures NibbleM(c, n) == Shift4B(POLY_MODBUS, Xor16(c, Low4(n)))
  {
    hide Shift4B, Least4, Low4, TableM;
    var d := Xor16(c, Low4(n));
    Shift4BIs(POLY_MODBUS, d); Least4Small(d);
    Low4In(c, n); Low4Out(c, n);
    Least4FoldsM(Least4(d));
  }

  function Upper28(c: bv32): bv32 { c & 0xFFFF_FFF0 }
  function Lowest4(c: bv32): bv32 { c & 0xF }

  lemma Parts32(c: bv32) ensures Xor(Upper28(c), Lowest4(c)) == c {}
  lemma Upper28Moves(c: bv32) ensures Shift4B32(POLY32B, Upper28(c)) == Drop4(c) {}
  lemma Lowest4Folds(n: bv32) requires n <= 0xF ensures Shift4B32(POLY32B, n) == Table32(n) {}
  lemma Lowest4Small(c: bv32) ensures Lowest4(c) <= 0xF {}
  lemma Wide4In(c: bv32, n: bv8) ensures Lowest4(Xor(c, Wide4(n))) == Pick32(c, n) {}
  lemma Wide4Out(c: bv32, n: bv8) ensures Drop4(Xor(c, Wide4(n))) == Drop4(c) {}

  lemma Nibble32IsShift(c: bv32, n: bv8)
    ensures Nibble32(c, n) == Shift4B32(POLY32B, Xor(c, Wide4(n)))
  {
    hide Shift4B32, Upper28, Lowest4, Wide4, Table32, Drop4, Pick32, Xor;
    var d := Xor(c, Wide4(n));
    Parts32(d); Upper28Moves(d); Lowest4Small(d);
    Wide4In(c, n);
    Wide4Out(c, n);
    Lowest4Folds(Lowest4(d));
    Shift4B32Linear(POLY32B, Upper28(d), Lowest4(d));
  }

  // ----- a byte of the code is eight shifts

  // The two nibbles of a byte where the shifts want them; the later one is only moved by the first four.
  lemma Halves(v: bv8) ensures Top(v) == Xor16(High4(v >> 4), Third4(v)) {}
  lemma HalvesB(v: bv8) ensures Word(v) == Xor16(Low4(v), Mid4(v >> 4)) {}
  lemma Halves32(v: bv8) ensures Wide(v) == Xor(Wide4(v), WideMid4(v >> 4)) {}
  lemma LateHalf(v: bv8) ensures Shift4(Third4(v)) == High4(v) {}
  lemma LateHalfB(p: bv16, n: bv8) ensures Shift4B(p, Mid4(n)) == Low4(n) {}
  lemma LateHalf32(p: bv32, n: bv8) ensures Shift4B32(p, WideMid4(n)) == Wide4(n) {}

  /** CRC16_update divides bit by bit. */
  lemma Crc16UpdateIsSerial(c: bv16, v: bv8)
    ensures Crc16Update(c, v) == Serial(c, v)
  {
    hide Xor16, Nibble, High4, Third4, Top, Shift4;
    var hi, lo := High4(v >> 4), Third4(v);
    Halves(v); LateHalf(v);
    Xor16Associates(c, hi, lo);
    Shift4Linear(Xor16(c, hi), lo);
    NibbleIsShift(c, v >> 4);
    NibbleIsShift(Nibble(c, v >> 4), v);
  }

  lemma SerialBHalves(p: bv16, c: bv16, v: bv8)
    ensures SerialB(p, c, v) == Shift4B(p, Xor16(Shift4B(p, Xor16(c, Low4(v))), Low4(v >> 4)))
  {
    hide Xor16, Low4, Mid4, Word, Shift4B;
    var lo, hi := Low4(v), Mid4(v >> 4);
    HalvesB(v); LateHalfB(p, v >> 4);
    Xor16Associates(c, lo, hi);
    Shift4BLinear(p, Xor16(c, lo), hi);
  }

  /** CRC16B_update, with the product, and modbus_crc16_update, with the table, divide bit by bit. */
  lemma Crc16BUpdateIsSerial(c: bv16, v: bv8)
    ensures Crc16BUpdate(c, v) == SerialB(POLY_CCITT, c, v)
  {
    hide Xor16, NibbleB, Low4, Shift4B, SerialB;
    SerialBHalves(POLY_CCITT, c, v);
    NibbleBIsShift(c, v);
    NibbleBIsShift(NibbleB(c, v), v >> 4);
  }

  lemma ModbusUpdateIsSerial(c: bv16, v: bv8)
    ensures ModbusUpdate(c, v) == SerialB(POLY_MODBUS, c, v)
  {
    hide Xor16, NibbleM, Low4, Shift4B, SerialB;
    SerialBHalves(POLY_MODBUS, c, v);
    NibbleMIsShift(c, v);
    NibbleMIsShift(NibbleM(c, v), v >> 4);
  }

  lemma SerialB32Halves(p: bv32, c: bv32, v: bv8)
    ensures SerialB32(p, c, v) == Shift4B32(p, Xor(Shift4B32(p, Xor(c, Wide4(v))), Wide4(v >> 4)))
  {
    hide Xor, Wide4, WideMid4, Wide, Shift4B32;
    var lo, hi := Wide4(v), WideMid4(v >> 4);
    Halves32(v); LateHalf32(p, v >> 4);
    XorAssociates(c, lo, hi);
    Shift4B32Linear(p, Xor(c, lo), hi);
  }

  lemma Crc32BUpdateIsSerial(c: bv32, v: bv8)
    ensures Crc32BUpdate(c, v) == SerialB32(POLY32B, c, v)
  {
    hide Xor, Nibble32, Wide4, Shift4B32, SerialB32;
    SerialB32Halves(POLY32B, c, v);
    Nibble32IsShift(c, v);
    Nibble32IsShift(Nibble32(c, v), v >> 4);
  }

  // ----- a byte or two at once (crc16.c:288-305)

  // Shifts on 32 and on 16 bits, named for the same reason as Xor16.
  function L32(c: bv32, n: bv8): bv32 requires n < 32 { c << n }
  function R32(c: bv32, n: bv8): bv32 requires n < 32 { c >> n }
  function L16(c: bv16, n: bv8): bv16 requires n < 16 { c << n }
  function R16(c: bv16, n: bv8): bv16 requires n < 16 { c >> n }

  function Fold32(y: bv32): bv32 { Xor(Xor(Xor(L32(y, 16), L32(y, 12)), L32(y, 5)), y) }

  /** The register as the code leaves it; what lies above sixteen bits is not masked off. */
  function Crc16Update8(crc: bv32, v: bv8): bv32 {
    var c := Xor(crc, L32(v as bv32, 8));
    var x := R32(c, 8);
    Xor(Fold32(Xor(x, R32(x, 4))), L32(c, 8))
  }

  function Crc16Update16(crc: bv32, v: bv8, w: bv8): bv32 {
    var c := Xor(crc, Xor(L32(v as bv32, 8), w as bv32));
    var y := Xor(Xor(Xor(Xor(c, R32(c, 4)), R32(c, 8)), R32(c, 11)), R32(c, 12));
    Xor(Fold32(y), L32(c, 16))
  }

  function Low16(c: bv32): bv16 { (c & 0xFFFF) as bv16 }

  /** The same on sixteen bits. */
  function Spread(y: bv16): bv16 { Xor16(Xor16(L16(y, 12), L16(y, 5)), y) }
  function Gather8(x: bv16): bv16 { Xor16(x, R16(x, 4)) }
  function Gather16(c: bv16): bv16 { Xor16(Xor16(Xor16(Xor16(c, R16(c, 4)), R16(c, 8)), R16(c, 11)), R16(c, 12)) }

  lemma LowXor(a: bv32, b: bv32) ensures Low16(Xor(a, b)) == Xor16(Low16(a), Low16(b)) {}
  lemma LowGone(a: bv32) ensures Low16(L32(a, 16)) == 0 {}
  lemma LowL(a: bv32, n: bv8) requires n < 16 ensures Low16(L32(a, n)) == L16(Low16(a), n) {}
  lemma LowR(a: bv32, n: bv8) requires n < 16 && a <= 0xFFFF ensures Low16(R32(a, n)) == R16(Low16(a), n) {}
  lemma Xor16Zero(a: bv16) ensures Xor16(0, a) == a && Xor16(a, 0) == a {}
  lemma SmallXor(a: bv32, b: bv32) requires a <= 0xFFFF && b <= 0xFFFF ensures Xor(a, b) <= 0xFFFF {}
  lemma SmallR(a: bv32, n: bv8) requires n < 16 && a <= 0xFFFF ensures R32(a, n) <= 0xFFFF {}
  lemma SmallBytes(v: bv8) ensures L32(v as bv32, 8) <= 0xFFFF && (v as bv32) <= 0xFFFF {}
  lemma LowBytes(v: bv8) ensures Low16(L32(v as bv32, 8)) == Top(v) && Low16(v as bv32) == Word(v) {}
  lemma LowWide(c: bv16) ensures Low16(c as bv32) == c && (c as bv32) <= 0xFFFF {}

  lemma LowFold(y: bv32)
    ensures Low16(Fold32(y)) == Spread(Low16(y))
  {
    hide Low16, Xor, Xor16, L32, L16;
    LowXor(Xor(Xor(L32(y, 16), L32(y, 12)), L32(y, 5)), y);
    LowXor(Xor(L32(y, 16), L32(y, 12)), L32(y, 5));
    LowXor(L32(y, 16), L32(y, 12));
    LowGone(y); LowL(y, 12); LowL(y, 5);
    Xor16Zero(L16(Low16(y), 12));
  }

  lemma Update8Low(c: bv16, v: bv8)
    ensures var d := Xor16(c, Top(v));
      Low16(Crc16Update8(c as bv32, v)) == Xor16(Spread(Gather8(R16(d, 8))), L16(d, 8))
  {
    LowWide(c); SmallBytes(v); LowBytes(v);
    hide Low16, Xor, Xor16, L32, L16, R32, R16, Fold32, Spread, Top;
    var e := Xor(c as bv32, L32(v as bv32, 8));
    var x := R32(e, 8);
    SmallXor(c as bv32, L32(v as bv32, 8)); SmallR(e, 8); SmallR(x, 4);
    LowXor(c as bv32, L32(v as bv32, 8)); LowR(e, 8); LowR(x, 4); LowXor(x, R32(x, 4));
    LowFold(Xor(x, R32(x, 4)));
    LowL(e, 8);
    LowXor(Fold32(Xor(x, R32(x, 4))), L32(e, 8));
  }

  lemma Update16Low(c: bv16, v: bv8, w: bv8)
    ensures Low16(Crc16Update16(c as bv32, v, w)) == Spread(Gather16(Xor16(c, Xor16(Top(v), Word(w)))))
  {
    LowWide(c); SmallBytes(v); LowBytes(v); SmallBytes(w); LowBytes(w);
    hide Low16, Xor, Xor16, L32, L16, R32, R16, Fold32, Spread, Top, Word;
    var t := Xor(L32(v as bv32, 8), w as bv32);
    var e := Xor(c as bv32, t);
    SmallXor(L32(v as bv32, 8), w as bv32); SmallXor(c as bv32, t);
    LowXor(L32(v as bv32, 8), w as bv32); LowXor(c as bv32, t);
    LowR(e, 4); LowR(e, 8); LowR(e, 11); LowR(e, 12);
    var y1 := Xor(e, R32(e, 4));
    var y2 := Xor(y1, R32(e, 8));
    var y3 := Xor(y2, R32(e, 11));
    LowXor(e, R32(e, 4)); LowXor(y1, R32(e, 8)); LowXor(y2, R32(e, 11)); LowXor(y3, R32(e, 12));
    LowFold(Xor(y3, R32(e, 12)));
    LowGone(e);
    LowXor(Fold32(Xor(y3, R32(e, 12))), L32(e, 16));
    Xor16Zero(Low16(Fold32(Xor(y3, R32(e, 12)))));
  }

  function Shift8(c: bv16): bv16 { Shift4(Shift4(c)) }

  lemma Shift8Linear(a: bv16, b: bv16)
    ensures Shift8(Xor16(a, b)) == Xor16(Shift8(a), Shift8(b))
  {
    hide Shift4, Xor16;
    Shift4Linear(a, b);
    Shift4Linear(Shift4(a), Shift4(b));
  }

  function LowPart(c: bv16): bv16 { c & 0xFF }

  lemma TwoParts(c: bv16) ensures Xor16(LowPart(c), L16(R16(c, 8), 8)) == c {}
  lemma PartsSmall(c: bv16) ensures LowPart(c) <= 0xFF && R16(c, 8) <= 0xFF {}
  lemma LowPartMoved(c: bv16) ensures L16(LowPart(c), 8) == L16(c, 8) {}
  lemma LowMoves(l: bv16) requires l <= 0xFF ensures Shift8(l) == L16(l, 8) {}
  lemma HighFolds(h: bv16) requires h <= 0xFF ensures Shift8(L16(h, 8)) == Spread(Gather8(h)) {}

  lemma Shift8Is(c: bv16)
    ensures Shift8(c) == Xor16(Spread(Gather8(R16(c, 8))), L16(c, 8))
  {
    TwoParts(c); PartsSmall(c); LowPartMoved(c);
    LowMoves(LowPart(c)); HighFolds(R16(c, 8));
    Shift8Linear(LowPart(c), L16(R16(c, 8), 8));
    Xor16Commutes(L16(c, 8), Spread(Gather8(R16(c, 8))));
    hide *;
  }

  /** Folding in a byte at once divides bit by bit. */
  lemma Update8IsSerial(c: bv16, v: bv8)
    ensures Low16(Crc16Update8(c as bv32, v)) == Serial(c, v)
  {
    hide Xor16, Shift4, Spread, Gather8, R16, L16, Low16, Crc16Update8, Top;
    Update8Low(c, v);
    Shift8Is(Xor16(c, Top(v)));
  }

  lemma L5Linear(a: bv16, b: bv16) ensures L16(Xor16(a, b), 5) == Xor16(L16(a, 5), L16(b, 5)) {}
  lemma L12Linear(a: bv16, b: bv16) ensures L16(Xor16(a, b), 12) == Xor16(L16(a, 12), L16(b, 12)) {}
  lemma R4Linear(a: bv16, b: bv16) ensures R16(Xor16(a, b), 4) == Xor16(R16(a, 4), R16(b, 4)) {}
  lemma R8Linear(a: bv16, b: bv16) ensures R16(Xor16(a, b), 8) == Xor16(R16(a, 8), R16(b, 8)) {}
  lemma R11Linear(a: bv16, b: bv16) ensures R16(Xor16(a, b), 11) == Xor16(R16(a, 11), R16(b, 11)) {}
  lemma R12Linear(a: bv16, b: bv16) ensures R16(Xor16(a, b), 12) == Xor16(R16(a, 12), R16(b, 12)) {}

  lemma SpreadLinear(a: bv16, b: bv16)
    ensures Spread(Xor16(a, b)) == Xor16(Spread(a), Spread(b))
  {
    hide Xor16, L16;
    L12Linear(a, b); L5Linear(a, b);
    Swap(L16(a, 12), L16(b, 12), L16(a, 5), L16(b, 5));
    Swap(Xor16(L16(a, 12), L16(a, 5)), Xor16(L16(b, 12), L16(b, 5)), a, b);
  }

  lemma Gather16Linear(a: bv16, b: bv16)
    ensures Gather16(Xor16(a, b)) == Xor16(Gather16(a), Gather16(b))
  {
    hide Xor16, R16;
    R4Linear(a, b); R8Linear(a, b); R11Linear(a, b); R12Linear(a, b);
    var a1, b1 := Xor16(a, R16(a, 4)), Xor16(b, R16(b, 4));
    var a2, b2 := Xor16(a1, R16(a, 8)), Xor16(b1, R16(b, 8));
    var a3, b3 := Xor16(a2, R16(a, 11)), Xor16(b2, R16(b, 11));
    Swap(a, b, R16(a, 4), R16(b, 4)); Swap(a1, b1, R16(a, 8), R16(b, 8));
    Swap(a2, b2, R16(a, 11), R16(b, 11)); Swap(a3, b3, R16(a, 12), R16(b, 12));
  }

  lemma LowTwice(l: bv16) requires l <= 0xFF ensures Shift8(L16(l, 8)) == Spread(Gather16(l)) {}
  lemma HighTwice(h: bv16)
    requires h <= 0xFF
    ensures Shift8(Spread(Gather8(h))) == Spread(Gather16(L16(h, 8)))
  {}

  lemma Shift16Is(c: bv16)
    ensures Shift8(Shift8(c)) == Spread(Gather16(c))
  {
    var l, h := LowPart(c), R16(c, 8);
    TwoParts(c); PartsSmall(c);
    LowMoves(l); HighFolds(h); LowTwice(l); HighTwice(h);
    Shift8Linear(l, L16(h, 8));
    Shift8Linear(Shift8(l), Shift8(L16(h, 8)));
    Gather16Linear(l, L16(h, 8));
    SpreadLinear(Gather16(l), Gather16(L16(h, 8)));
    hide *;
  }

  lemma WordMoves(w: bv8) ensures Shift8(Word(w)) == Top(w) {}

  /** Folding in two bytes at once divides bit by bit. */
  lemma Update16IsSerial(c: bv16, v: bv8, w: bv8)
    ensures Low16(Crc16Update16(c as bv32, v, w)) == Serial(Serial(c, v), w)
  {
    hide Xor16, Shift4, Spread, Gather16, Low16, Crc16Update16, Top, Word;
    Update16Low(c, v, w);
    Xor16Associates(c, Top(v), Word(w));
    Shift16Is(Xor16(Xor16(c, Top(v)), Word(w)));
    Shift8Linear(Xor16(c, Top(v)), Word(w));
    WordMoves(w);
  }

  // What is left above bit 15 comes back down at the next byte.

  function High16(c: bv32): bv32 { c & 0xFFFF_0000 }

  /** The two updates on a register that the data has entered. */
  function Body8(c: bv32): bv32 { Xor(Fold32(Xor(R32(c, 8), R32(R32(c, 8), 4))), L32(c, 8)) }
  function Body16(c: bv32): bv32 {
    Xor(Fold32(Xor(Xor(Xor(Xor(c, R32(c, 4)), R32(c, 8)), R32(c, 11)), R32(c, 12))), L32(c, 16))
  }

  lemma Left5(a: bv32, b: bv32) ensures L32(Xor(a, b), 5) == Xor(L32(a, 5), L32(b, 5)) {}
  lemma Left8(a: bv32, b: bv32) ensures L32(Xor(a, b), 8) == Xor(L32(a, 8), L32(b, 8)) {}
  lemma Left12(a: bv32, b: bv32) ensures L32(Xor(a, b), 12) == Xor(L32(a, 12), L32(b, 12)) {}
  lemma Left16(a: bv32, b: bv32) ensures L32(Xor(a, b), 16) == Xor(L32(a, 16), L32(b, 16)) {}
  lemma Right4(a: bv32, b: bv32) ensures R32(Xor(a, b), 4) == Xor(R32(a, 4), R32(b, 4)) {}
  lemma Right8(a: bv32, b: bv32) ensures R32(Xor(a, b), 8) == Xor(R32(a, 8), R32(b, 8)) {}
  lemma Right11(a: bv32, b: bv32) ensures R32(Xor(a, b), 11) == Xor(R32(a, 11), R32(b, 11)) {}
  lemma Right12(a: bv32, b: bv32) ensures R32(Xor(a, b), 12) == Xor(R32(a, 12), R32(b, 12)) {}

  lemma Fold32Linear(a: bv32, b: bv32)
    ensures Fold32(Xor(a, b)) == Xor(Fold32(a), Fold32(b))
  {
    hide Xor, L32;
    Left16(a, b); Left12(a, b); Left5(a, b);
    Swap32(L32(a, 16), L32(b, 16), L32(a, 12), L32(b, 12));
    var a1, b1 := Xor(L32(a, 16), L32(a, 12)), Xor(L32(b, 16), L32(b, 12));
    Swap32(a1, b1, L32(a, 5), L32(b, 5));
    Swap32(Xor(a1, L32(a, 5)), Xor(b1, L32(b, 5)), a, b);
  }

  lemma Body8Linear(a: bv32, b: bv32)
    ensures Body8(Xor(a, b)) == Xor(Body8(a), Body8(b))
  {
    hide Xor, L32, R32, Fold32;
    Right8(a, b); Right4(R32(a, 8), R32(b, 8)); Left8(a, b);
    Swap32(R32(a, 8), R32(b, 8), R32(R32(a, 8), 4), R32(R32(b, 8), 4));
    var x, y := Xor(R32(a, 8), R32(R32(a, 8), 4)), Xor(R32(b, 8), R32(R32(b, 8), 4));
    Fold32Linear(x, y);
    Swap32(Fold32(x), Fold32(y), L32(a, 8), L32(b, 8));
  }

  lemma Body16Linear(a: bv32, b: bv32)
    ensures Body16(Xor(a, b)) == Xor(Body16(a), Body16(b))
  {
    hide Xor, L32, R32, Fold32;
    Right4(a, b); Right8(a, b); Right11(a, b); Right12(a, b); Left16(a, b);
    var a1, b1 := Xor(a, R32(a, 4)), Xor(b, R32(b, 4));
    var a2, b2 := Xor(a1, R32(a, 8)), Xor(b1, R32(b, 8));
    var a3, b3 := Xor(a2, R32(a, 11)), Xor(b2, R32(b, 11));
    var a4, b4 := Xor(a3, R32(a, 12)), Xor(b3, R32(b, 12));
    Swap32(a, b, R32(a, 4), R32(b, 4)); Swap32(a1, b1, R32(a, 8), R32(b, 8));
    Swap32(a2, b2, R32(a, 11), R32(b, 11)); Swap32(a3, b3, R32(a, 12), R32(b, 12));
    Fold32Linear(a4, b4);
    Swap32(Fold32(a4), Fold32(b4), L32(a, 16), L32(b, 16));
  }

  lemma TwoHalves(c: bv32) ensures Xor(Low16(c) as bv32, High16(c)) == c {}
  lemma NoData(c: bv32)
    ensures Xor(c, L32(0, 8)) == c
    ensures Xor(c, Xor(L32(0, 8), 0)) == c
  {}

  /** Xor16, with the middle one moved to the end. */
  lemma Last32(a: bv32, b: bv32, d: bv32)
    ensures Xor(Xor(a, b), d) == Xor(Xor(a, d), b)
  {
    hide Xor;
    XorAssociates(a, b, d); XorAssociates(a, d, b); XorCommutes(b, d);
  }

  lemma Update8Split(c: bv32, v: bv8)
    ensures Low16(Crc16Update8(c, v)) ==
            Xor16(Low16(Crc16Update8(Low16(c) as bv32, v)), Low16(Crc16Update8(High16(c), 0)))
  {
    var low, high, d := Low16(c) as bv32, High16(c), L32(v as bv32, 8);
    TwoHalves(c); NoData(high); Last32(low, high, d);
    hide Low16, High16, Xor, Xor16, L32, R32, Fold32;
    assert Crc16Update8(c, v) == Body8(Xor(c, d));
    assert Crc16Update8(low, v) == Body8(Xor(low, d));
    assert Crc16Update8(high, 0) == Body8(high);
    hide Crc16Update8, Body8;
    Body8Linear(Xor(low, d), high);
    LowXor(Body8(Xor(low, d)), Body8(high));
  }

  lemma Update16Split(c: bv32, v: bv8, w: bv8)
    ensures Low16(Crc16Update16(c, v, w)) ==
            Xor16(Low16(Crc16Update16(Low16(c) as bv32, v, w)), Low16(Crc16Update16(High16(c), 0, 0)))
  {
    var low, high, d := Low16(c) as bv32, High16(c), Xor(L32(v as bv32, 8), w as bv32);
    TwoHalves(c); NoData(high); Last32(low, high, d);
    hide Low16, High16, Xor, Xor16, L32, R32, Fold32;
    assert Crc16Update16(c, v, w) == Body16(Xor(c, d));
    assert Crc16Update16(low, v, w) == Body16(Xor(low, d));
    assert Crc16Update16(high, 0, 0) == Body16(high);
    hide Crc16Update16, Body16;
    Body16Linear(Xor(low, d), high);
    LowXor(Body16(Xor(low, d)), Body16(high));
  }

  lemma Stray8(c: bv32) ensures Low16(Crc16Update8(High16(c), 0)) == 0 <==> c & 0x0FFF_0000 == 0 {}
  lemma Stray16(c: bv32) ensures Low16(Crc16Update16(High16(c), 0, 0)) == 0 <==> c & 0x0FFF_0000 == 0 {}

  lemma Xor16KeepsIff(a: bv16, b: bv16) ensures Xor16(a, b) == a <==> b == 0 {}

  /** On a register whose high half was not masked off the folding forms divide bit by bit exactly when bits
      16 to 27 happen to be clear. */
  lemma UnmaskedUpdateIff(c: bv32, v: bv8, w: bv8)
    ensures Low16(Crc16Update8(c, v)) == Serial(Low16(c), v) <==> c & 0x0FFF_0000 == 0
    ensures Low16(Crc16Update16(c, v, w)) == Serial(Serial(Low16(c), v), w) <==> c & 0x0FFF_0000 == 0
  {
    hide Xor16, Low16, High16, Crc16Update8, Crc16Update16, Serial;
    Update8Split(c, v); Update16Split(c, v, w);
    Stray8(c); Stray16(c);
    Update8IsSerial(Low16(c), v); Update16IsSerial(Low16(c), v, w);
    Xor16KeepsIff(Serial(Low16(c), v), Low16(Crc16Update8(High16(c), 0)));
    Xor16KeepsIff(Serial(Serial(Low16(c), v), w), Low16(Crc16Update16(High16(c), 0, 0)));
  }

  /** A register with a bit above the sixteenth to begin with is such an input, whatever the byte. */
  lemma WideRegisterFails(v: bv8, w: bv8)
    ensures Low16(Crc16Update8(0x1_0000, v)) != Serial(0, v)
    ensures Low16(Crc16Update16(0x1_0000, v, w)) != Serial(Serial(0, v), w)
  {
    UnmaskedUpdateIff(0x1_0000, v, w);
    assert Low16(0x1_0000) == 0;
    hide Crc16Update8, Crc16Update16, Serial, Low16;
  }

  // What the two leave above sixteen bits cancels out, so the mask that the source has as a comment is not needed.
  lemma Body8StaysNarrow(c: bv32) requires c <= 0xFFFF ensures Body8(c) <= 0xFFFF {}
  lemma LowByteStaysNarrow(c: bv32) requires c <= 0xFF ensures Body16(c) <= 0xFFFF {}
  lemma HighByteStaysNarrow(c: bv32) requires c <= 0xFF ensures Body16(L32(c, 8)) <= 0xFFFF {}
  lemma TwoBytes(c: bv32)
    requires c <= 0xFFFF
    ensures Xor(L32(R32(c, 8), 8), c & 0xFF) == c && R32(c, 8) <= 0xFF && c & 0xFF <= 0xFF
  {}
  lemma LowIsAll(c: bv32) requires c <= 0xFFFF ensures Low16(c) as bv32 == c {}

  lemma Body16StaysNarrow(c: bv32)
    requires c <= 0xFFFF
    ensures Body16(c) <= 0xFFFF
  {
    hide Body16, Xor, L32, R32;
    var high, low := R32(c, 8), c & 0xFF;
    TwoBytes(c);
    HighByteStaysNarrow(high); LowByteStaysNarrow(low);
    Body16Linear(L32(high, 8), low);
    SmallXor(Body16(L32(high, 8)), Body16(low));
  }

  lemma Update8StaysNarrow(c: bv32, v: bv8)
    requires c <= 0xFFFF
    ensures Crc16Update8(c, v) <= 0xFFFF
  {
    hide Xor, L32, R32, Fold32;
    SmallBytes(v); SmallXor(c, L32(v as bv32, 8));
    Body8StaysNarrow(Xor(c, L32(v as bv32, 8)));
  }

  lemma Update16StaysNarrow(c: bv32, v: bv8, w: bv8)
    requires c <= 0xFFFF
    ensures Crc16Update16(c, v, w) <= 0xFFFF
  {
    hide Xor, L32, R32, Fold32;
    SmallBytes(v); SmallBytes(w); SmallXor(L32(v as bv32, 8), w as bv32);
    SmallXor(c, Xor(L32(v as bv32, 8), w as bv32));
    Body16StaysNarrow(Xor(c, Xor(L32(v as bv32, 8), w as bv32)));
  }

  /** Sixteen bits in the 32-bit register. */
  function Register(c: bv16): bv32 { c as bv32 }

  lemma Update8IsExact(c: bv16, v: bv8)
    ensures Crc16Update8(Register(c), v) == Register(Serial(c, v))
  {
    hide Crc16Update8, Low16, Serial;
    LowWide(c);
    Update8StaysNarrow(c as bv32, v);
    LowIsAll(Crc16Update8(c as bv32, v));
    Update8IsSerial(c, v);
  }

  lemma Update16IsExact(c: bv16, v: bv8, w: bv8)
    ensures Crc16Update16(Register(c), v, w) == Register(Serial(Serial(c, v), w))
  {
    hide Crc16Update16, Low16, Serial;
    LowWide(c);
    Update16StaysNarrow(c as bv32, v, w);
    LowIsAll(Crc16Update16(c as bv32, v, w));
    Update16IsSerial(c, v, w);
  }

  // ----- messages

  function SerialAll(c: bv16, m: seq<bv8>): bv16
    decreases |m|
  {
    if m == [] then c else SerialAll(Serial(c, m[0]), m[1..])
  }

  /** A message cut into single bytes and pairs, in whatever way the caller likes. */
  datatype Piece = Byte(v: bv8) | Pair(v: bv8, w: bv8)

  function Bytes(m: seq<Piece>): seq<bv8> {
    if m == [] then []
    else (match m[0] case Byte(v) => [v] case Pair(v, w) => [v, w]) + Bytes(m[1..])
  }

  function Folded(c: bv32, m: seq<Piece>): bv32
    decreases |m|
  {
    if m == [] then c
    else Folded(match m[0] case Byte(v) => Crc16Update8(c, v) case Pair(v, w) => Crc16Update16(c, v, w), m[1..])
  }

  /** Over whole messages the folding forms, freely mixed and never masked, give the bit-serial remainder and no
      stray bit above it, from every register of sixteen bits. */
  lemma {:induction false} FoldedIsSerial(c: bv16, m: seq<Piece>)
    ensures Folded(Register(c), m) == Register(SerialAll(c, Bytes(m)))
    decreases |m|
  {
    hide Crc16Update8, Crc16Update16, Serial, Register;
    if m != [] {
      match m[0] {
        case Byte(v) =>
          Update8IsExact(c, v);
          FoldedIsSerial(Serial(c, v), m[1..]);
          assert ([v] + Bytes(m[1..]))[1..] == Bytes(m[1..]);
        case Pair(v, w) =>
          Update16IsExact(c, v, w);
          FoldedIsSerial(Serial(Serial(c, v), w), m[1..]);
          assert ([v, w] + Bytes(m[1..]))[1..] == [w] + Bytes(m[1..]);
          assert ([w] + Bytes(m[1..]))[1..] == Bytes(m[1..]);
      }
    }
  }

  function SerialAllB(p: bv16, c: bv16, m: seq<bv8>): bv16
    decreases |m|
  {
    if m == [] then c else SerialAllB(p, SerialB(p, c, m[0]), m[1..])
  }

  function SerialAllB32(p: bv32, c: bv32, m: seq<bv8>): bv32
    decreases |m|
  {
    if m == [] then c else SerialAllB32(p, SerialB32(p, c, m[0]), m[1..])
  }

  lemma {:induction false} AllConcat(p: bv16, c: bv16, m: seq<bv8>, n: seq<bv8>)
    ensures SerialAllB(p, c, m + n) == SerialAllB(p, SerialAllB(p, c, m), n)
    decreases |m|
  {
    hide SerialB;
    if m == [] {
      assert m + n == n;
    } else {
      assert (m + n)[1..] == m[1..] + n;
      AllConcat(p, SerialB(p, c, m[0]), m[1..], n);
    }
  }

  lemma {:induction false} AllConcat32(p: bv32, c: bv32, m: seq<bv8>, n: seq<bv8>)
    ensures SerialAllB32(p, c, m + n) == SerialAllB32(p, SerialAllB32(p, c, m), n)
    decreases |m|
  {
    hide SerialB32;
    if m == [] {
      assert m + n == n;
    } else {
      assert (m + n)[1..] == m[1..] + n;
      AllConcat32(p, SerialB32(p, c, m[0]), m[1..], n);
    }
  }

  function LowByte(c: bv16): bv8 { (c & 0xFF) as bv8 }
  function HighByte(c: bv16): bv8 { (c >> 8) as bv8 }

  lemma OwnByteOut(p: bv16, c: bv16) ensures SerialB(p, c, LowByte(c)) == c >> 8 {}
  lemma OwnByteLast(p: bv16, c: bv16) ensures SerialB(p, c >> 8, HighByte(c)) == 0 {}

  lemma Two(p: bv16, c: bv16, a: bv8, b: bv8)
    ensures SerialAllB(p, c, [a, b]) == SerialB(p, SerialB(p, c, a), b)
  {
    hide SerialB;
    var m := [a, b];
    assert m[1..] == [b] && m[1..][1..] == [];
    assert SerialAllB(p, SerialB(p, c, a), [b]) == SerialAllB(p, SerialB(p, SerialB(p, c, a), b), []);
  }

  /** A message followed by its own checksum, low byte first, leaves nothing, whatever the start and the message. */
  lemma OwnChecksumLeavesZero(p: bv16, start: bv16, m: seq<bv8>)
    ensures var r := SerialAllB(p, start, m);
      SerialAllB(p, start, m + [LowByte(r), HighByte(r)]) == 0
  {
    hide SerialB, LowByte, HighByte;
    var r := SerialAllB(p, start, m);
    AllConcat(p, start, m, [LowByte(r), HighByte(r)]);
    Two(p, r, LowByte(r), HighByte(r));
    OwnByteOut(p, r);
    OwnByteLast(p, r);
  }

  // The complement is what CRC16_finalize appends.
  lemma Complement1(c: bv16) ensures SerialB(POLY_CCITT, c, LowByte(!c)) == Xor16(c >> 8, 0x0F78) {}
  lemma Complement2(c: bv16) ensures SerialB(POLY_CCITT, Xor16(c >> 8, 0x0F78), HighByte(!c)) == 0xF0B8 {}

  /** Followed by the complement of its checksum, every message leaves the same remainder. */
  lemma FinalChecksumLeavesConstant(start: bv16, m: seq<bv8>)
    ensures var r := !SerialAllB(POLY_CCITT, start, m);
      SerialAllB(POLY_CCITT, start, m + [LowByte(r), HighByte(r)]) == 0xF0B8
  {
    hide SerialB, LowByte, HighByte, Xor16;
    var c := SerialAllB(POLY_CCITT, start, m);
    AllConcat(POLY_CCITT, start, m, [LowByte(!c), HighByte(!c)]);
    Two(POLY_CCITT, c, LowByte(!c), HighByte(!c));
    Complement1(c);
    Complement2(c);
  }

  // Four bytes of a 32-bit checksum leave nothing either.
  function Byte32(c: bv32): bv8 { (c & 0xFF) as bv8 }
  function Drop8(c: bv32): bv32 { c >> 8 }
  lemma OwnByteOut32(p: bv32, c: bv32) ensures SerialB32(p, c, Byte32(c)) == Drop8(c) {}
  lemma AllOut32(c: bv32) ensures Drop8(Drop8(Drop8(Drop8(c)))) == 0 {}

  lemma OwnChecksum32LeavesZero(p: bv32, start: bv32, m: seq<bv8>)
    ensures var r := SerialAllB32(p, start, m); var r1 := Drop8(r); var r2 := Drop8(r1);
      SerialAllB32(p, start, m + [Byte32(r), Byte32(r1), Byte32(r2), Byte32(Drop8(r2))]) == 0
  {
    hide SerialB32, SerialAllB32, Byte32, Drop8;
    var r := SerialAllB32(p, start, m);
    var r1 := Drop8(r);
    var r2 := Drop8(r1);
    var r3 := Drop8(r2);
    AllConcat32(p, start, m, [Byte32(r), Byte32(r1), Byte32(r2), Byte32(r3)]);
    OwnByteOut32(p, r); OwnByteOut32(p, r1); OwnByteOut32(p, r2); OwnByteOut32(p, r3);
    Four(p, r, Byte32(r), Byte32(r1), Byte32(r2), Byte32(r3));
    AllOut32(r);
  }

  lemma Four(p: bv32, c: bv32, a: bv8, b: bv8, d: bv8, e: bv8)
    ensures SerialAllB32(p, c, [a, b, d, e]) == SerialB32(p, SerialB32(p, SerialB32(p, SerialB32(p, c, a), b), d), e)
  {
    hide SerialB32;
    var c1 := SerialB32(p, c, a);
    var c2 := SerialB32(p, c1, b);
    var c3 := SerialB32(p, c2, d);
    var m := [a, b, d, e];
    assert m[1..] == [b, d, e] && m[1..][1..] == [d, e] && m[1..][1..][1..] == [e] && m[1..][1..][1..][1..] == [];
    assert SerialAllB32(p, c1, [b, d, e]) == SerialAllB32(p, c2, [d, e]);
    assert SerialAllB32(p, c2, [d, e]) == SerialAllB32(p, c3, [e]);
    assert SerialAllB32(p, c3, [e]) == SerialAllB32(p, SerialB32(p, c3, e), []);
  }

  /** crc_from_block: complemented before and after. The loop tests at its end, so there must be a byte. */
  method Crc32FromBlock(crc: bv32, buffer: array<bv8>) returns (r: bv32)
    requires buffer.Length > 0
    ensures r == !SerialAllB32(POLY32B, !crc, buffer[..])
  {
    hide SerialB32, Nibble32;
    r := !crc;
    assert buffer[..0] == [];
    for i := 0 to buffer.Length
      invariant r == SerialAllB32(POLY32B, !crc, buffer[..i])
    {
      var val := buffer[i];
      Crc32BUpdateIsSerial(r, val);
      One32(POLY32B, !crc, buffer[..i], val);
      assert buffer[..i + 1] == buffer[..i] + [val];
      r := Nibble32(r, val);
      r := Nibble32(r, val >> 4);
    }
    assert buffer[..] == buffer[..buffer.Length];
    r := !r;
  }

  lemma One32(p: bv32, c: bv32, m: seq<bv8>, v: bv8)
    ensures SerialAllB32(p, c, m + [v]) == SerialB32(p, SerialAllB32(p, c, m), v)
  {
    hide SerialB32;
    AllConcat32(p, c, m, [v]);
    var d := SerialAllB32(p, c, m);
    assert SerialAllB32(p, d, [v]) == SerialAllB32(p, SerialB32(p, d, v), []);
  }

  // ----- what a 16-bit checksum detects

  function Shift8B(p: bv16, c: bv16): bv16 { Shift4B(p, Shift4B(p, c)) }

  /** With the constant term in the polynomial no shift loses anything. */
  lemma ShiftBKernel(p: bv16, c: bv16)
    requires p >> 15 == 1 && ShiftB(p, c) == 0
    ensures c == 0
  {}

  lemma Xor16Nothing(a: bv16, b: bv16) ensures Xor16(a, b) == 0 <==> a == b {}

  lemma ShiftBInjective(p: bv16, a: bv16, b: bv16)
    requires p >> 15 == 1 && ShiftB(p, a) == ShiftB(p, b)
    ensures a == b
  {
    ShiftBLinear(p, a, b);
    Xor16Nothing(ShiftB(p, a), ShiftB(p, b));
    Xor16Nothing(a, b);
    hide ShiftB, Xor16;
    ShiftBKernel(p, Xor16(a, b));
  }

  lemma Shift4BInjective(p: bv16, a: bv16, b: bv16)
    requires p >> 15 == 1 && Shift4B(p, a) == Shift4B(p, b)
    ensures a == b
  {
    hide ShiftB;
    var a1, b1 := ShiftB(p, a), ShiftB(p, b);
    var a2, b2 := ShiftB(p, a1), ShiftB(p, b1);
    ShiftBInjective(p, ShiftB(p, a2), ShiftB(p, b2));
    ShiftBInjective(p, a2, b2);
    ShiftBInjective(p, a1, b1);
    ShiftBInjective(p, a, b);
  }

  lemma Xor16Cancels(c: bv16, a: bv16, b: bv16)
    requires Xor16(c, a) == Xor16(c, b)
    ensures a == b
  {}

  lemma SerialBInjective(p: bv16, a: bv16, b: bv16, v: bv8)
    requires p >> 15 == 1 && SerialB(p, a, v) == SerialB(p, b, v)
    ensures a == b
  {
    hide Shift4B, Xor16, Word;
    Shift4BInjective(p, Shift4B(p, Xor16(a, Word(v))), Shift4B(p, Xor16(b, Word(v))));
    Shift4BInjective(p, Xor16(a, Word(v)), Xor16(b, Word(v)));
    Xor16Commutes(a, Word(v)); Xor16Commutes(b, Word(v));
    Xor16Cancels(Word(v), a, b);
  }

  lemma TopMoves(p: bv16, v: bv8) ensures Shift8B(p, Top(v)) == Word(v) {}
  lemma PairOf(a: bv8, b: bv8) ensures LowByte(Xor16(Word(a), Top(b))) == a && HighByte(Xor16(Word(a), Top(b))) == b {}

  /** Two bytes enter together as one word. */
  lemma TwoTogether(p: bv16, c: bv16, a: bv8, b: bv8)
    ensures SerialB(p, SerialB(p, c, a), b) == Shift8B(p, Shift8B(p, Xor16(c, Xor16(Word(a), Top(b)))))
  {
    hide Shift4B, Xor16, Word, Top;
    var d := Xor16(c, Word(a));
    TopMoves(p, b);
    Xor16Associates(c, Word(a), Top(b));
    Shift4BLinear(p, d, Top(b));
    Shift4BLinear(p, Shift4B(p, d), Shift4B(p, Top(b)));
  }

  lemma TwoBytesInjective(p: bv16, c: bv16, a: bv8, b: bv8, a': bv8, b': bv8)
    requires p >> 15 == 1 && SerialB(p, SerialB(p, c, a), b) == SerialB(p, SerialB(p, c, a'), b')
    ensures a == a' && b == b'
  {
    hide Shift4B, Xor16, Word, Top, SerialB, LowByte, HighByte;
    var x, y := Xor16(Word(a), Top(b)), Xor16(Word(a'), Top(b'));
    TwoTogether(p, c, a, b); TwoTogether(p, c, a', b');
    Shift8BInjective(p, Shift8B(p, Xor16(c, x)), Shift8B(p, Xor16(c, y)));
    Shift8BInjective(p, Xor16(c, x), Xor16(c, y));
    Xor16Cancels(c, x, y);
    PairOf(a, b); PairOf(a', b');
  }

  lemma Shift8BInjective(p: bv16, a: bv16, b: bv16)
    requires p >> 15 == 1 && Shift8B(p, a) == Shift8B(p, b)
    ensures a == b
  {
    hide Shift4B;
    Shift4BInjective(p, Shift4B(p, a), Shift4B(p, b));
    Shift4BInjective(p, a, b);
  }

  lemma {:induction false} AllInjective(p: bv16, a: bv16, b: bv16, m: seq<bv8>)
    requires p >> 15 == 1 && SerialAllB(p, a, m) == SerialAllB(p, b, m)
    ensures a == b
    decreases |m|
  {
    if m != [] {
      hide SerialB;
      AllInjective(p, SerialB(p, a, m[0]), SerialB(p, b, m[0]), m[1..]);
      SerialBInjective(p, a, b, m[0]);
    }
  }

  /** Every change within two neighbouring bytes changes the checksum of the message. */
  lemma ShortBurstsAreDetected(p: bv16, start: bv16, before: seq<bv8>, a: bv8, b: bv8, a': bv8, b': bv8,
                               after: seq<bv8>)
    requires p >> 15 == 1 && (a != a' || b != b')
    ensures SerialAllB(p, start, before + [a, b] + after) != SerialAllB(p, start, before + [a', b'] + after)
  {
    hide SerialB;
    var c := SerialAllB(p, start, before);
    AllConcat(p, start, before + [a, b], after); AllConcat(p, start, before, [a, b]); Two(p, c, a, b);
    AllConcat(p, start, before + [a', b'], after); AllConcat(p, start, before, [a', b']); Two(p, c, a', b');
    if SerialAllB(p, start, before + [a, b] + after) == SerialAllB(p, start, before + [a', b'] + after) {
      AllInjective(p, SerialAllB(p, c, [a, b]), SerialAllB(p, c, [a', b']), after);
      TwoBytesInjective(p, c, a, b, a', b');
    }
  }
}
