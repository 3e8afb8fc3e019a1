/** The human-readable order number of `generateOrderId` in
    `server/controllers/order.controller.js`: "EG", the last eight digits of
    the creation time in milliseconds, and a two-digit random draw. */
module OrderIds {
  import opened Text

  const Prefix := "EG"

  /** The number of digits kept of the clock reading. */
  const ClockDigits: nat := 8

  /** The order number for clock reading `nowMs` (`Date.now()`) and random
      draw `draw` (`Math.floor(Math.random() * 100)`, so below 100). */
  function GenerateOrderId(nowMs: nat, draw: nat): (id: string)
    requires draw < 100
    ensures |id| == 4 + (if |NatToString(nowMs)| < ClockDigits then |NatToString(nowMs)| else ClockDigits)
    ensures id[..2] == Prefix && AllDigits(id[2..])
  {
    LengthOfNatToString(draw, 2);
    Prefix + SliceLast(NatToString(nowMs), ClockDigits) + PadStart(NatToString(draw), 2, '0')
  }

  /** The random part always takes two digits and reads back as the draw. */
  lemma DrawPart(draw: nat)
    requires draw < 100
    ensures var p := PadStart(NatToString(draw), 2, '0');
      |p| == 2 && AllDigits(p) && ParseDigits(p) == draw
  {
    var s := NatToString(draw);
    var p := PadStart(s, 2, '0');
    LengthOfNatToString(draw, 2);
    if draw < 10 {
      assert p == ['0'] + [DigitChar(draw)];
      ParseSnoc(['0'], DigitChar(draw));
      assert ParseDigits(['0']) == 10 * ParseDigits([]) + 0;
    } else {
      LengthOfNatToString(draw, 1);
      assert p == s;
      ParseNatToString(draw);
    }
  }

  /** From an eight-digit clock reading on, the clock part takes eight
      digits and reads back as the reading modulo 10^8. */
  lemma ClockPart(nowMs: nat)
    requires nowMs >= Pow10(7)
    ensures var c := SliceLast(NatToString(nowMs), ClockDigits);
      |c| == ClockDigits && ParseDigits(c) == nowMs % Pow10(ClockDigits)
  {
    LengthOfNatToString(nowMs, 7);
    ParseSuffix(nowMs, ClockDigits);
  }

  /** Once the clock reads at least 10^7 ms (any date after 1970-01-01
      02:46 UTC), an order number is twelve characters, and its digits
      decode to the clock reading modulo 10^8 followed by the draw. */
  lemma DecodeOrderId(nowMs: nat, draw: nat)
    requires draw < 100 && nowMs >= Pow10(7)
    ensures var id := GenerateOrderId(nowMs, draw);
      && |id| == 12
      && id[..2] == Prefix
      && ParseDigits(id[2..10]) == nowMs % Pow10(ClockDigits)
      && ParseDigits(id[10..]) == draw
  {
    var id := GenerateOrderId(nowMs, draw);
    var clock := SliceLast(NatToString(nowMs), ClockDigits);
    var pad := PadStart(NatToString(draw), 2, '0');
    ClockPart(nowMs);
    DrawPart(draw);
    assert id == Prefix + clock + pad;
    assert id[2..10] == clock;
    assert id[10..] == pad;
  }

  /** Two digit strings of the same length with the same value are equal. */
  lemma {:induction false} ParseInjective(a: string, b: string)
    requires AllDigits(a) && AllDigits(b) && |a| == |b|
    requires ParseDigits(a) == ParseDigits(b)
    ensures a == b
  {
    if a != [] {
      var n := |a| - 1;
      var x, y := DigitValue(a[n]), DigitValue(b[n]);
      var pa, pb := ParseDigits(a[..n]), ParseDigits(b[..n]);
      ModUnique(10 * pa + x, 10, pa, x);
      ModUnique(10 * pb + y, 10, pb, y);
      ParseInjective(a[..n], b[..n]);
      assert a == a[..n] + [a[n]];
      assert b == b[..n] + [b[n]];
    }
  }

  /** Two orders created after 1970-01-01 02:46 UTC get the same order
      number exactly when their clock readings agree modulo 10^8 ms (about
      27.8 hours) and their draws agree: the generator alone does not make
      `orderId` unique, the schema's unique index does. */
  lemma OrderIdsCollide(now1: nat, draw1: nat, now2: nat, draw2: nat)
    requires draw1 < 100 && draw2 < 100
    requires now1 >= Pow10(7) && now2 >= Pow10(7)
    ensures GenerateOrderId(now1, draw1) == GenerateOrderId(now2, draw2)
        <==> now1 % Pow10(ClockDigits) == now2 % Pow10(ClockDigits) && draw1 == draw2
  {
    var id1, id2 := GenerateOrderId(now1, draw1), GenerateOrderId(now2, draw2);
    DecodeOrderId(now1, draw1);
    DecodeOrderId(now2, draw2);
    if now1 % Pow10(ClockDigits) == now2 % Pow10(ClockDigits) && draw1 == draw2 {
      ParseInjective(id1[2..10], id2[2..10]);
      ParseInjective(id1[10..], id2[10..]);
      assert id1 == id1[..2] + id1[2..10] + id1[10..];
      assert id2 == id2[..2] + id2[2..10] + id2[10..];
    }
  }
}
