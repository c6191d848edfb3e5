/** A disk transfer, and what reading and writing sectors have in common. */
module IdeJob {
  import opened Sequences
  import opened IdeModel
  import opened IdeValid
  import opened IdeRuns
  import opened IdeAddress

  /** A transfer as decoded: the masked task file, and what the device holds meanwhile. */
  datatype Job = Job(r: Regs, g: Drive, base: int, image: seq<int>)

  function First(j: Job): int {
    GetLba(j.r, j.g)
  }

  function JobSpan(j: Job): (n: int)
    ensures n > 0
  {
    Span(j.r.lba)
  }

  predicate GoodJob(j: Job) {
    ValidDrive(j.g) && 1 <= j.r.sectorCount <= 256 && 0 <= j.r.head < 16
  }

  /** Twelve published bytes as the six words that carry them. */
  function BlockOf(base: int, b: seq<int>): (e: seq<Event>)
    requires |b| == 12
    ensures |e| == 6
  {
    seq(6, k requires 0 <= k < 6 => BusWrite((base + k) % U16, BufWord(b, k)))
  }

  /** The register block a disk publishes. */
  function Block(base: int, r: Regs): (e: seq<Event>)
    ensures |e| == 6
  {
    BlockOf(base, RegBytes(r, false))
  }

  function Pointer(j: Job, i: int): Option<int> {
    SectorPointer(j.image, NthSector(First(j), JobSpan(j), i))
  }

  lemma SameLba(r: Regs, q: Regs, g: Drive)
    requires q.lba == r.lba && q.sector == r.sector && q.cylinder == r.cylinder && q.head == r.head
    ensures GetLba(q, g) == GetLba(r, g)
  {
  }

  lemma SettledCount(r: Regs, cdrom: bool)
    ensures SettledRegs(r, cdrom).sectorCount == r.sectorCount
  {
  }

  lemma PrefixGrows<T>(s: seq<T>, k: int)
    requires 0 <= k < |s|
    ensures s[..k] + [s[k]] == s[..k + 1]
  {
  }

  lemma BlockWord(base: int, b: seq<int>, k: int)
    requires |b| == 12 && 0 <= k < 6
    ensures BlockOf(base, b)[k] == BusWrite((base + k) % U16, BufWord(b, k))
  {
    hide BufWord;
  }

  /** One word of a register block goes out. */
  lemma SendStep(s: Sys)
    requires Valid(s.d) && s.d.state == SET_REGS_SEND && s.d.cnt < 6
    ensures |s.d.buf| == 12 && 0 <= s.d.cnt
    ensures var t := OnSetRegsSend(s);
            t.d == s.d.(cnt := s.d.cnt + 1) && Emitted(t.bus) == [BlockOf(s.d.base, s.d.buf)[s.d.cnt]]
  {
    BlockWord(s.d.base, s.d.buf, s.d.cnt);
    hide BlockOf, BufWord;
  }

  lemma SentControl(s: Sys)
    requires Valid(s.d) && s.d.state == SET_REGS_SEND && s.d.cnt == 6
    ensures var t := OnSetRegsSend(s); t.d == s.d.(cnt := 0, state := s.d.next) && t.bus == s.bus
  {
  }

  // ---------------------------------------------------------------- the data port

  /** The words of a trace that go to the data port. */
  function DataWords(base: int, tr: seq<Event>): seq<int> {
    if tr == [] then []
    else DataWords(base, Front(tr)) + (if Last(tr).address == (base + 255) % U16 then [Last(tr).data] else [])
  }

  lemma {:induction false} DataWordsAppend(base: int, a: seq<Event>, b: seq<Event>)
    ensures DataWords(base, a + b) == DataWords(base, a) + DataWords(base, b)
  {
    if b == [] {
      assert a + b == a;
    } else {
      assert Front(a + b) == a + Front(b) && Last(a + b) == Last(b);
      DataWordsAppend(base, a, Front(b));
    }
  }

  lemma PortsDiffer(base: int, k: int)
    requires 0 <= k < 6
    ensures (base + k) % U16 != (base + 255) % U16
  {
    var apart := (base + 255) / U16 - (base + k) / U16;
    assert (base + 255) % U16 - (base + k) % U16 == 255 - k - U16 * apart;
  }

  /** A register block never touches the data port. */
  lemma {:induction false} BlockHasNoData(base: int, b: seq<int>, k: int)
    requires |b| == 12 && 0 <= k <= 6
    ensures DataWords(base, BlockOf(base, b)[..k]) == []
  {
    if k > 0 {
      var e := BlockOf(base, b)[..k];
      BlockWord(base, b, k - 1);
      PortsDiffer(base, k - 1);
      hide BlockOf, BufWord;
      assert Front(e) == BlockOf(base, b)[..k - 1] && Last(e) == BlockOf(base, b)[k - 1];
      BlockHasNoData(base, b, k - 1);
    }
  }
}
