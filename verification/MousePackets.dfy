/** Splitting a mouse movement into three-byte packets. */
module MousePackets {

  function Clamp(v: int): (s: int)
    ensures -127 <= s <= 127
  {
    if v < -127 then -127 else if v > 127 then 127 else v
  }

  function Abs(v: int): int {
    if v < 0 then -v else v
  }

  function Larger(dx: int, dy: int): int {
    if Abs(dx) < Abs(dy) then Abs(dy) else Abs(dx)
  }

  /** A signed byte as the unsigned byte of the same bits. */
  function AsByte(step: int): int {
    step % 256
  }

  function Flags(stepX: int, stepY: int, buttons: int): int {
    8 + buttons % 8 + (if stepX < 0 then 16 else 0) + (if stepY < 0 then 32 else 0)
  }

  // ---------------------------------------------------------------- what a receiver reads

  /** Nine bits in two's complement: the sign from the flags, the rest from the byte. */
  function MoveX(bytes: seq<int>, n: nat): int
    requires 3 * n + 2 < |bytes|
  {
    bytes[3 * n + 1] - (if bytes[3 * n] / 16 % 2 == 1 then 256 else 0)
  }

  function MoveY(bytes: seq<int>, n: nat): int
    requires 3 * n + 2 < |bytes|
  {
    bytes[3 * n + 2] - (if bytes[3 * n] / 32 % 2 == 1 then 256 else 0)
  }

  /** The three button bits, under the bit that is always set. */
  predicate Carries(bytes: seq<int>, n: nat, buttons: int)
    requires 3 * n + 2 < |bytes|
  {
    bytes[3 * n] % 16 == 8 + buttons % 8
  }

  function SumX(bytes: seq<int>, n: nat): int
    requires 3 * n <= |bytes|
  {
    if n == 0 then 0 else SumX(bytes, n - 1) + MoveX(bytes, n - 1)
  }

  function SumY(bytes: seq<int>, n: nat): int
    requires 3 * n <= |bytes|
  {
    if n == 0 then 0 else SumY(bytes, n - 1) + MoveY(bytes, n - 1)
  }

  /** How many packets a movement takes: at least one, and one for every 127 steps begun. */
  function PacketCount(dx: int, dy: int): (n: nat)
    ensures n >= 1
  {
    if Larger(dx, dy) == 0 then 1 else (Larger(dx, dy) + 126) / 127
  }

  predicate GoodPacket(bytes: seq<int>, n: nat, buttons: int)
    requires 3 * n + 2 < |bytes|
  {
    && -127 <= MoveX(bytes, n) <= 127 && -127 <= MoveY(bytes, n) <= 127
    && Carries(bytes, n, buttons)
    && 0 <= bytes[3 * n] < 256 && 0 <= bytes[3 * n + 1] < 256 && 0 <= bytes[3 * n + 2] < 256
  }

  lemma PacketReads(bytes: seq<int>, n: nat, sx: int, sy: int, buttons: int)
    requires |bytes| == 3 * n && -127 <= sx <= 127 && -127 <= sy <= 127 && 0 <= buttons < 256
    ensures var more := bytes + [Flags(sx, sy, buttons), AsByte(sx), AsByte(sy)];
            MoveX(more, n) == sx && MoveY(more, n) == sy && GoodPacket(more, n, buttons)
  {
    var f := Flags(sx, sy, buttons);
    var b := buttons % 8;
    assert f / 16 == (if sx < 0 then 1 else 0) + (if sy < 0 then 2 else 0) && f % 16 == 8 + b;
    assert f / 32 == if sy < 0 then 1 else 0;
    assert AsByte(sx) == if sx < 0 then sx + 256 else sx;
    assert AsByte(sy) == if sy < 0 then sy + 256 else sy;
  }

  lemma {:induction false} SumsKeep(bytes: seq<int>, more: seq<int>, n: nat)
    requires 3 * n <= |bytes|
    ensures SumX(bytes + more, n) == SumX(bytes, n) && SumY(bytes + more, n) == SumY(bytes, n)
  {
    if n > 0 {
      SumsKeep(bytes, more, n - 1);
      assert MoveX(bytes + more, n - 1) == MoveX(bytes, n - 1) && MoveY(bytes + more, n - 1) == MoveY(bytes, n - 1);
    }
  }

  lemma StaysGood(bytes: seq<int>, more: seq<int>, n: nat, buttons: int)
    requires |bytes| == 3 * n && forall m: nat | m < n :: GoodPacket(bytes, m, buttons)
    ensures forall m: nat | m < n :: GoodPacket(bytes + more, m, buttons)
  {
    forall m: nat | m < n ensures GoodPacket(bytes + more, m, buttons) {
      assert GoodPacket(bytes, m, buttons);
    }
  }

  /** No fewer packets could carry the movement. */
  lemma Fewest(bytes: seq<int>, n: nat, buttons: int)
    requires n >= 1 && |bytes| == 3 * n && forall m: nat | m < n :: GoodPacket(bytes, m, buttons)
    ensures PacketCount(SumX(bytes, n), SumY(bytes, n)) <= n
  {
    Reach(bytes, n, n, buttons);
  }

  lemma {:induction false} Reach(bytes: seq<int>, n: nat, k: nat, buttons: int)
    requires |bytes| == 3 * n && k <= n && forall m: nat | m < n :: GoodPacket(bytes, m, buttons)
    ensures -127 * k <= SumX(bytes, k) <= 127 * k && -127 * k <= SumY(bytes, k) <= 127 * k
  {
    if k > 0 {
      Reach(bytes, n, k - 1, buttons);
      assert GoodPacket(bytes, k - 1, buttons);
      hide MoveX, MoveY, Carries;
    }
  }

  /** A step of 127 either way takes one packet off the count. */
  lemma CountSteps(dx: int, dy: int)
    requires dx != 0 || dy != 0
    ensures var x, y := dx - Clamp(dx), dy - Clamp(dy);
            (x == 0 && y == 0 <==> PacketCount(dx, dy) == 1)
            && (x != 0 || y != 0 ==> PacketCount(x, y) == PacketCount(dx, dy) - 1 && Larger(x, y) < Larger(dx, dy))
  {
    var l := Larger(dx, dy);
    var x, y := dx - Clamp(dx), dy - Clamp(dy);
    assert Larger(x, y) == if l <= 127 then 0 else l - 127;
    hide Larger, Clamp;
    if l > 127 { assert (l - 127 + 126) / 127 == (l + 126) / 127 - 1; }
    assert x == 0 && y == 0 <==> Larger(x, y) == 0 by { NoMove(x, y); }
  }

  lemma NoMove(x: int, y: int)
    ensures Larger(x, y) == 0 <==> x == 0 && y == 0
    ensures Larger(x, y) >= 0
  {
  }

  function Packet(stepX: int, stepY: int, buttons: int): (p: seq<int>)
    ensures |p| == 3
  {
    [Flags(stepX, stepY, buttons), AsByte(stepX), AsByte(stepY)]
  }

  /** `n` packets carry the movement but for the rest `(x, y)`, for which as many are still due as the count says. */
  predicate Splitting(bytes: seq<int>, n: nat, x: int, y: int, dx: int, dy: int, buttons: int) {
    && |bytes| == 3 * n
    && SumX(bytes, n) + x == dx && SumY(bytes, n) + y == dy
    && (forall m: nat | m < n :: GoodPacket(bytes, m, buttons))
    && (if n == 0 || x != 0 || y != 0 then n + PacketCount(x, y) == PacketCount(dx, dy) else n == PacketCount(dx, dy))
  }

  /** One more packet takes one step off the rest, and one packet off those due. */
  lemma OnePacket(bytes: seq<int>, n: nat, x: int, y: int, dx: int, dy: int, buttons: int)
    requires Splitting(bytes, n, x, y, dx, dy, buttons) && 0 <= buttons < 256 && (n == 0 || x != 0 || y != 0)
    ensures Splitting(bytes + Packet(Clamp(x), Clamp(y), buttons), n + 1, x - Clamp(x), y - Clamp(y), dx, dy, buttons)
    ensures x != 0 || y != 0 ==> Larger(x - Clamp(x), y - Clamp(y)) < Larger(x, y)
    ensures x == 0 && y == 0 ==> x - Clamp(x) == 0 && y - Clamp(y) == 0
  {
    var packet := Packet(Clamp(x), Clamp(y), buttons);
    PacketReads(bytes, n, Clamp(x), Clamp(y), buttons);
    SumsKeep(bytes, packet, n);
    StaysGood(bytes, packet, n, buttons);
    CountFalls(x, y);
    hide GoodPacket, MoveX, MoveY, PacketCount, Flags, AsByte, Larger;
  }

  lemma CountFalls(x: int, y: int)
    ensures var u, v := x - Clamp(x), y - Clamp(y);
            && (x == 0 && y == 0 ==> u == 0 && v == 0 && PacketCount(x, y) == 1)
            && (u == 0 && v == 0 ==> PacketCount(x, y) == 1)
            && (u != 0 || v != 0 ==> PacketCount(u, v) == PacketCount(x, y) - 1)
            && (x != 0 || y != 0 ==> Larger(u, v) < Larger(x, y))
  {
    NoMove(x, y);
    NoMove(x - Clamp(x), y - Clamp(y));
    if x != 0 || y != 0 { CountSteps(x, y); }
    hide Larger;
  }

  /** The packets carry the whole movement in steps of at most 127, all with the same buttons. */
  method EncodeMousePackets(dx: int, dy: int, buttons: int) returns (bytes: seq<int>)
    requires 0 <= buttons < 256
    ensures |bytes| == 3 * PacketCount(dx, dy)
    ensures SumX(bytes, PacketCount(dx, dy)) == dx && SumY(bytes, PacketCount(dx, dy)) == dy
    ensures forall n | 0 <= n < PacketCount(dx, dy) :: GoodPacket(bytes, n, buttons)
  {
    bytes := [];
    var x, y, first := dx, dy, true;
    ghost var n: nat := 0;
    NoMove(x, y);
    hide Larger, Clamp, PacketCount, GoodPacket;
    while first || x != 0 || y != 0
      invariant Splitting(bytes, n, x, y, dx, dy, buttons) && first == (n == 0)
      decreases first, Larger(x, y)
    {
      OnePacket(bytes, n, x, y, dx, dy, buttons);
      NoMove(x, y);
      first := false;
      var stepX, stepY := Clamp(x), Clamp(y);
      bytes := bytes + Packet(stepX, stepY, buttons);
      x, y, n := x - stepX, y - stepY, n + 1;
      NoMove(x, y);
    }
  }
}
