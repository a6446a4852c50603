/** The text form in which a worker advertises its cache, and its older forms. */
module WorkerInfo {
  import opened Arith
  import opened Wrappers

  const WORD_MAX: nat := 0xFFFF_FFFF_FFFF_FFFF
  const UINT32: nat := 0x1_0000_0000
  const UINT8: nat := 0x100
  const MAX_INSTANCE_NAME_LEN: nat := 256
  const MAX_ADDRESS_LEN: nat := 64

  // ---------------------------------------------------------------------------
  // Numerals
  // ---------------------------------------------------------------------------

  predicate IsDigit(c: char) {
    '0' <= c <= '9'
  }

  predicate Digits(s: string) {
    forall i :: 0 <= i < |s| ==> IsDigit(s[i])
  }

  /** A numeric token: non-empty and only digits. */
  predicate IsNumeric(s: string) {
    s != [] && Digits(s)
  }

  function Show(n: nat): (s: string)
    ensures IsNumeric(s)
  {
    var d := [('0' as int + n % 10) as char];
    if n < 10 then d else Show(n / 10) + d
  }

  function Value(s: string): nat
    requires Digits(s)
  {
    if s == [] then 0 else 10 * Value(s[..|s| - 1]) + (s[|s| - 1] as int - '0' as int)
  }

  lemma {:induction false} ValueShow(n: nat)
    ensures Value(Show(n)) == n
  {
    if n >= 10 {
      ValueShow(n / 10);
      assert Show(n)[..|Show(n)| - 1] == Show(n / 10);
    }
  }

  /** Length of the leading digits. */
  function Leading(s: string): (k: nat)
    ensures k <= |s| && Digits(s[..k]) && (k < |s| ==> !IsDigit(s[k]))
  {
    if s == [] || !IsDigit(s[0]) then 0
    else
      var k := 1 + Leading(s[1..]);
      assert s[..k] == [s[0]] + s[1..][..k - 1];
      k
  }

  /** Reads the leading digits. */
  function ReadDigits(s: string): Option<nat> {
    var k := Leading(s);
    if k == 0 || Value(s[..k]) > WORD_MAX then None else Some(Value(s[..k]))
  }

  predicate IsBlank(c: char) {
    c == ' ' || 9 <= c as int <= 13
  }

  function SkipBlanks(s: string): string {
    if s != [] && IsBlank(s[0]) then SkipBlanks(s[1..]) else s
  }

  /** Reads a machine word as the C library does: blanks, a sign, digits and an ignored rest. A minus
      sign negates modulo the word size; None where the conversion throws. */
  function ReadNumber(s: string): Option<nat> {
    var t := SkipBlanks(s);
    if t != [] && t[0] == '+' then ReadDigits(t[1..])
    else if t != [] && t[0] == '-' then
      var r := ReadDigits(t[1..]);
      if r.None? then None else Some((WORD_MAX + 1 - r.value) % (WORD_MAX + 1))
    else ReadDigits(t)
  }

  lemma {:induction false} LeadingAll(s: string)
    requires Digits(s)
    ensures Leading(s) == |s|
  {
    if s != [] { LeadingAll(s[1..]); }
  }

  lemma ReadShown(n: nat)
    requires n <= WORD_MAX
    ensures ReadNumber(Show(n)) == Some(n)
  {
    hide Show, Value;
    DigitsShown(n);
    assert IsDigit(Show(n)[0]);
  }

  lemma DigitsShown(n: nat)
    requires n <= WORD_MAX
    ensures ReadDigits(Show(n)) == Some(n)
  {
    var s := Show(n);
    LeadingAll(s);
    assert s[..|s|] == s;
    ValueShow(n);
  }

  lemma {:induction false} BlanksSkipped(blanks: string, t: string)
    requires forall i :: 0 <= i < |blanks| ==> IsBlank(blanks[i])
    requires t != [] ==> !IsBlank(t[0])
    ensures SkipBlanks(blanks + t) == t
  {
    if blanks == [] {
      assert blanks + t == t;
    } else {
      BlanksSkipped(blanks[1..], t);
      assert (blanks + t)[1..] == blanks[1..] + t;
    }
  }

  /** Blanks and a plus sign change nothing; a negative number is read as its residue modulo the
      word size. */
  lemma ReadSigned(blanks: string, n: nat)
    requires n <= WORD_MAX && forall i :: 0 <= i < |blanks| ==> IsBlank(blanks[i])
    ensures ReadNumber(blanks + Show(n)) == ReadNumber(blanks + ("+" + Show(n))) == Some(n)
    ensures ReadNumber(blanks + ("-" + Show(n))) == Some(if n == 0 then 0 else WORD_MAX + 1 - n)
  {
    hide Show, Value, SkipBlanks, ReadDigits, Leading;
    DigitsShown(n);
    assert IsDigit(Show(n)[0]);
    BlanksSkipped(blanks, Show(n));
    BlanksSkipped(blanks, "+" + Show(n));
    BlanksSkipped(blanks, "-" + Show(n));
    assert ("+" + Show(n))[1..] == Show(n) && ("-" + Show(n))[1..] == Show(n);
  }

  // ---------------------------------------------------------------------------
  // Separators
  // ---------------------------------------------------------------------------

  /** First position of c from i on, or the length. */
  function Find(s: string, c: char, i: nat): (k: nat)
    requires i <= |s|
    ensures i <= k <= |s| && (forall j :: i <= j < k ==> s[j] != c) && (k < |s| ==> s[k] == c)
    decreases |s| - i
  {
    if i == |s| || s[i] == c then i else Find(s, c, i + 1)
  }

  /** The tokens between separators, empty ones included. */
  function Split(s: string, c: char): seq<string> {
    var k := Find(s, c, 0);
    if k == |s| then [s] else [s[..k]] + Split(s[k + 1..], c)
  }

  function Join(ts: seq<string>, c: char): string {
    if ts == [] then "" else if |ts| == 1 then ts[0] else ts[0] + [c] + Join(ts[1..], c)
  }

  predicate Free(s: string, c: char) {
    forall i :: 0 <= i < |s| ==> s[i] != c
  }

  predicate AllFree(ts: seq<string>, c: char) {
    forall i :: 0 <= i < |ts| ==> Free(ts[i], c)
  }

  lemma SplitFirst(t: string, c: char, rest: string)
    requires Free(t, c)
    ensures Split(t, c) == [t]
    ensures Split(t + [c] + rest, c) == [t] + Split(rest, c)
  {
    assert Find(t, c, 0) == |t|;
    var s := t + [c] + rest;
    var k := Find(s, c, 0);
    assert s[|t|] == c;
    assert forall j :: 0 <= j < |t| ==> s[j] == t[j];
    assert k == |t|;
    assert s[..k] == t && s[k + 1..] == rest;
  }

  /** Splitting undoes joining. */
  lemma {:induction false} SplitJoin(ts: seq<string>, c: char)
    requires ts != [] && AllFree(ts, c)
    ensures Split(Join(ts, c), c) == ts
  {
    assert Free(ts[0], c);
    if |ts| == 1 {
      SplitFirst(ts[0], c, "");
    } else {
      forall i | 0 <= i < |ts| - 1 ensures Free(ts[1..][i], c) { assert Free(ts[i + 1], c); }
      SplitJoin(ts[1..], c);
      SplitFirst(ts[0], c, Join(ts[1..], c));
    }
  }

  lemma SplitStep(s: string, c: char, start: nat)
    requires start <= |s|
    ensures var end := Find(s, c, start);
            Split(s[start..], c) == if end == |s| then [s[start..]] else [s[start..end]] + Split(s[end + 1..], c)
  {
    hide Find, Split;
    var x, end := s[start..], Find(s, c, start);
    assert Find(x, c, 0) == end - start by { FindSuffix(s, c, start, 0); }
    SplitOnce(x, c);
    if end < |s| {
      assert x[..end - start] == s[start..end];
      assert x[end - start + 1..] == s[end + 1..];
    }
  }

  lemma SplitOnce(s: string, c: char)
    ensures var k := Find(s, c, 0);
            Split(s, c) == if k == |s| then [s] else [s[..k]] + Split(s[k + 1..], c)
  {
    hide Find;
  }

  /** The cursor loop finds the tokens. */
  method SplitText(s: string, c: char) returns (ts: seq<string>)
    ensures ts == Split(s, c)
  {
    hide Split, Find;
    ts := [];
    var start := 0;
    var end := Find(s, c, 0);
    assert s[0..] == s;
    while end != |s|
      invariant start <= end <= |s| && end == Find(s, c, start) && ts + Split(s[start..], c) == Split(s, c)
      decreases |s| - start
    {
      SplitStep(s, c, start);
      ghost var rest := Split(s[end + 1..], c);
      assert ts + ([s[start..end]] + rest) == (ts + [s[start..end]]) + rest;
      ts := ts + [s[start..end]];
      start := end + 1;
      end := Find(s, c, start);
    }
    SplitStep(s, c, start);
    ts := ts + [s[start..]];
  }

  lemma {:induction false} FindSuffix(s: string, c: char, i: nat, j: nat)
    requires i + j <= |s|
    ensures Find(s[i..], c, j) == Find(s, c, i + j) - i
    decreases |s| - i - j
  {
    if i + j < |s| && s[i + j] != c { FindSuffix(s, c, i, j + 1); }
  }

  // ---------------------------------------------------------------------------
  // Size lists
  // ---------------------------------------------------------------------------

  function ShowAll(v: seq<nat>): (ts: seq<string>)
    ensures |ts| == |v| && forall i :: 0 <= i < |v| ==> ts[i] == Show(v[i])
  {
    seq(|v|, i requires 0 <= i < |v| => Show(v[i]))
  }

  /** Reads the non-empty tokens. */
  function ReadAll(ts: seq<string>): Option<seq<nat>> {
    if ts == [] then Some([])
    else
      var rest := ReadAll(ts[..|ts| - 1]);
      var t := ts[|ts| - 1];
      if rest.None? then None
      else if t == "" then rest
      else if ReadNumber(t).None? then None
      else Some(rest.value + [ReadNumber(t).value])
  }

  function ParseSizes(s: string): Option<seq<nat>> {
    ReadAll(Split(s, '|'))
  }

  lemma DigitsFree(s: string, c: char)
    requires Digits(s) && !IsDigit(c)
    ensures Free(s, c)
  {
  }

  lemma {:induction false} ReadAllShown(v: seq<nat>)
    requires forall i :: 0 <= i < |v| ==> v[i] <= WORD_MAX
    ensures ReadAll(ShowAll(v)) == Some(v)
  {
    hide ReadNumber, Show;
    if v != [] {
      var n := |v| - 1;
      ReadAllShown(v[..n]);
      assert ShowAll(v)[..n] == ShowAll(v[..n]);
      ReadShown(v[n]);
      ShownNumeric(v[n]);
      assert v[..n] + [v[n]] == v;
    }
  }

  lemma ShownNumeric(n: nat)
    ensures IsNumeric(Show(n)) && Show(n) != ""
  {
  }

  /** A size list survives its text form, the empty one included. */
  lemma SizesRoundTrip(v: seq<nat>)
    requires forall i :: 0 <= i < |v| ==> v[i] <= WORD_MAX
    ensures ParseSizes(Join(ShowAll(v), '|')) == Some(v)
    ensures Free(Join(ShowAll(v), '|'), ',')
  {
    hide Show, ReadNumber;
    if v == [] {
      SplitFirst("", '|', "");
      assert ReadAll([""][..0]) == Some([]);
    } else {
      forall i | 0 <= i < |v| ensures Free(ShowAll(v)[i], '|') {
        ShownNumeric(v[i]);
        DigitsFree(Show(v[i]), '|');
      }
      SplitJoin(ShowAll(v), '|');
      ReadAllShown(v);
    }
    JoinFree(ShowAll(v), '|', ',');
  }

  lemma {:induction false} JoinFree(ts: seq<string>, c: char, x: char)
    requires c != x && forall i :: 0 <= i < |ts| ==> Digits(ts[i]) && !IsDigit(x)
    ensures Free(Join(ts, c), x)
  {
    if ts != [] {
      DigitsFree(ts[0], x);
      if |ts| > 1 {
        assert forall i :: 0 <= i < |ts| - 1 ==> ts[1..][i] == ts[i + 1];
        JoinFree(ts[1..], c, x);
      }
    }
  }

  method JoinSizes(v: seq<nat>) returns (s: string)
    ensures s == Join(ShowAll(v), '|')
  {
    hide Show;
    s := "";
    for i := 0 to |v|
      invariant s == Join(ShowAll(v)[..i], '|')
    {
      assert ShowAll(v)[..i + 1] == ShowAll(v)[..i] + [Show(v[i])];
      JoinPush(ShowAll(v)[..i], Show(v[i]), '|');
      if i > 0 {
        s := s + "|";
      }
      s := s + Show(v[i]);
    }
    assert ShowAll(v)[..|v|] == ShowAll(v);
  }

  lemma {:induction false} JoinPush(ts: seq<string>, t: string, c: char)
    ensures Join(ts + [t], c) == if ts == [] then t else Join(ts, c) + [c] + t
  {
    if ts == [] {
      assert ts + [t] == [t];
    } else if |ts| == 1 {
      assert (ts + [t])[1..] == [t];
    } else {
      assert (ts + [t])[1..] == ts[1..] + [t];
      JoinPush(ts[1..], t, c);
      assert ts[0] + [c] + (Join(ts[1..], c) + [c] + t) == (ts[0] + [c] + Join(ts[1..], c)) + [c] + t;
    }
  }

  // ---------------------------------------------------------------------------
  // Worker records
  // ---------------------------------------------------------------------------

  datatype Info = Info(
    inst: string, workerId: nat, tpSize: nat, tpRank: nat, blockSizes: seq<nat>, tokenSizes: seq<nat>,
    numBlocks: nat, numLayers: nat, protocols: nat, kernelNtpb: nat, indexerNtpb: nat,
    packSize: nat, pageStride: nat, addr: string)

  predicate SizesFit(v: seq<nat>) {
    forall i :: 0 <= i < |v| ==> v[i] <= WORD_MAX
  }

  /** Field widths of the record, and names without the separator. */
  predicate Valid(w: Info) {
    && w.workerId < UINT32 && w.tpSize < UINT32 && w.tpRank < UINT32 && SizesFit(w.blockSizes) && SizesFit(w.tokenSizes)
    && w.numBlocks < UINT32 && w.numLayers < UINT32 && w.protocols < UINT8 && w.kernelNtpb < UINT32
    && w.indexerNtpb < UINT32 && w.packSize < UINT32 && w.pageStride <= WORD_MAX
    && Free(w.inst, ',') && Free(w.addr, ',')
  }

  /** The eleven fields of the oldest form. */
  function Base(w: Info): (fs: seq<string>)
    ensures |fs| == 11
  {
    [w.inst, Show(w.workerId), Show(w.tpSize), Show(w.tpRank), Join(ShowAll(w.blockSizes), '|'),
     Join(ShowAll(w.tokenSizes), '|'), Show(w.numBlocks), Show(w.numLayers), Show(w.protocols),
     Show(w.kernelNtpb), Show(w.indexerNtpb)]
  }

  function Fields(w: Info): (fs: seq<string>)
    ensures |fs| == if w.addr == "" then 13 else 14
  {
    Base(w) + [Show(w.packSize), Show(w.pageStride)] + if w.addr == "" then [] else [w.addr]
  }

  /** Serializes a record; None when a name is too long. */
  method ToString(w: Info) returns (s: Option<string>)
    ensures s.Some? <==> |w.inst| <= MAX_INSTANCE_NAME_LEN && |w.addr| <= MAX_ADDRESS_LEN
    ensures s.Some? ==> s.value == Join(Fields(w), ',')
  {
    hide Show, Join;
    if |w.inst| > MAX_INSTANCE_NAME_LEN {
      return None;
    }
    var blocks := JoinSizes(w.blockSizes);
    var tokens := JoinSizes(w.tokenSizes);
    var fs := [w.inst, Show(w.workerId), Show(w.tpSize), Show(w.tpRank), blocks, tokens, Show(w.numBlocks),
               Show(w.numLayers), Show(w.protocols), Show(w.kernelNtpb), Show(w.indexerNtpb),
               Show(w.packSize), Show(w.pageStride)];
    assert fs == Base(w) + [Show(w.packSize), Show(w.pageStride)];
    var text := JoinText(fs);
    if w.addr != "" {
      if |w.addr| > MAX_ADDRESS_LEN {
        return None;
      }
      JoinPush(fs, w.addr, ',');
      text := text + "," + w.addr;
    } else {
      assert Fields(w) == fs;
    }
    s := Some(text);
  }

  /** Streams the fields one by one. */
  method JoinText(fs: seq<string>) returns (s: string)
    ensures s == Join(fs, ',')
  {
    hide Join;
    s := "";
    NoFields();
    for i := 0 to |fs|
      invariant s == Join(fs[..i], ',')
    {
      assert fs[..i + 1] == fs[..i] + [fs[i]];
      JoinPush(fs[..i], fs[i], ',');
      if i > 0 {
        s := s + ",";
      }
      s := s + fs[i];
    }
    assert fs[..|fs|] == fs;
  }

  lemma NoFields()
    ensures Join([], ',') == ""
  {
  }

  function ReadMod(s: string, m: nat): Option<nat>
    requires m > 0
  {
    var r := ReadNumber(s);
    if r.None? then None else Some(r.value % m)
  }

  /** The first eleven fields; the others take their defaults. */
  function DecodeBase(fs: seq<string>): Option<Info>
    requires |fs| >= 11
  {
    var a, b, c := ReadMod(fs[1], UINT32), ReadMod(fs[2], UINT32), ReadMod(fs[3], UINT32);
    var x, y := ParseSizes(fs[4]), ParseSizes(fs[5]);
    var d, e, f := ReadMod(fs[6], UINT32), ReadMod(fs[7], UINT32), ReadMod(fs[8], UINT8);
    var g, h := ReadMod(fs[9], UINT32), ReadMod(fs[10], UINT32);
    if a.None? || b.None? || c.None? || x.None? || y.None? || d.None? || e.None? || f.None? || g.None? || h.None? then None
    else
      Some(Info(fs[0], a.value, b.value, c.value, x.value, y.value, d.value, e.value, f.value, g.value, h.value, 1, 0, ""))
  }

  function WithPack(w: Info, pack: Option<nat>): Option<Info> {
    if pack.None? then None else Some(w.(packSize := if pack.value == 0 then 1 else pack.value))
  }

  /** A record from its fields; None where the source throws. */
  function Decode(fs: seq<string>): Option<Info> {
    if |fs| < 11 || |fs| > 14 then None
    else
      var base := DecodeBase(fs);
      if base.None? || |fs| == 11 then base
      else if |fs| == 12 then
        if IsNumeric(fs[11]) then WithPack(base.value, ReadMod(fs[11], UINT32))
        else Some(base.value.(addr := fs[11]))
      else
        var w := WithPack(base.value, ReadMod(fs[11], UINT32));
        if w.None? then None
        else if |fs| == 13 && !IsNumeric(fs[12]) then Some(w.value.(addr := fs[12]))
        else if ReadNumber(fs[12]).None? then None
        else Some(w.value.(pageStride := ReadNumber(fs[12]).value, addr := if |fs| == 14 then fs[13] else ""))
  }

  method FromString(s: string) returns (w: Option<Info>)
    ensures w == Decode(Split(s, ','))
  {
    var fs := SplitText(s, ',');
    w := Decode(fs);
  }

  lemma ReadModShown(n: nat, m: nat)
    requires n < m <= WORD_MAX
    ensures ReadMod(Show(n), m) == Some(n)
  {
    hide Show, ReadNumber;
    ReadShown(n);
    DivMod(0, m, n);
  }

  lemma BaseDecoded(w: Info, fs: seq<string>)
    requires Valid(w) && |fs| >= 11 && fs[..11] == Base(w)
    ensures DecodeBase(fs) == Some(w.(packSize := 1, pageStride := 0, addr := ""))
  {
    hide Show, ReadNumber, Join, ParseSizes, ReadMod;
    assert forall i :: 0 <= i < 11 ==> fs[i] == fs[..11][i];
    ReadModShown(w.workerId, UINT32);
    ReadModShown(w.tpSize, UINT32);
    ReadModShown(w.tpRank, UINT32);
    SizesRoundTrip(w.blockSizes);
    SizesRoundTrip(w.tokenSizes);
    ReadModShown(w.numBlocks, UINT32);
    ReadModShown(w.numLayers, UINT32);
    ReadModShown(w.protocols, UINT8);
    ReadModShown(w.kernelNtpb, UINT32);
    ReadModShown(w.indexerNtpb, UINT32);
  }

  lemma ShowFree(n: nat)
    ensures Free(Show(n), ',')
  {
    DigitsFree(Show(n), ',');
  }

  lemma FieldsFree(w: Info)
    requires Valid(w)
    ensures AllFree(Fields(w), ',')
  {
    hide Show, Join, ParseSizes;
    ShowFree(w.workerId);
    ShowFree(w.tpSize);
    ShowFree(w.tpRank);
    SizesRoundTrip(w.blockSizes);
    SizesRoundTrip(w.tokenSizes);
    ShowFree(w.numBlocks);
    ShowFree(w.numLayers);
    ShowFree(w.protocols);
    ShowFree(w.kernelNtpb);
    ShowFree(w.indexerNtpb);
    ShowFree(w.packSize);
    ShowFree(w.pageStride);
  }

  /** Between the commas stand the fields in the order of the wire format, numbers in decimal. */
  lemma WireOrder(w: Info)
    requires Valid(w)
    ensures Split(Join(Fields(w), ','), ',') ==
            [w.inst, Show(w.workerId), Show(w.tpSize), Show(w.tpRank), Join(ShowAll(w.blockSizes), '|'),
             Join(ShowAll(w.tokenSizes), '|'), Show(w.numBlocks), Show(w.numLayers), Show(w.protocols),
             Show(w.kernelNtpb), Show(w.indexerNtpb), Show(w.packSize), Show(w.pageStride)]
            + if w.addr == "" then [] else [w.addr]
    ensures Show(1203) == "1203" && Join(["40", "5", "6"], '|') == "40|5|6"
  {
    hide Show, Join, Split;
    FieldsFree(w);
    SplitJoin(Fields(w), ',');
    Sample();
  }

  lemma Sample()
    ensures Show(1203) == "1203" && Join(["40", "5", "6"], '|') == "40|5|6"
  {
    assert Show(12) == "12" && Show(120) == "120";
    assert ["40", "5", "6"][1..] == ["5", "6"] && ["5", "6"][1..] == ["6"];
  }

  /** Every advertised record is read back unchanged, except that a pack size of 0 becomes 1. */
  lemma RoundTrip(w: Info)
    requires Valid(w)
    ensures Decode(Split(Join(Fields(w), ','), ',')) == Some(w.(packSize := if w.packSize == 0 then 1 else w.packSize))
  {
    hide Show, Join, Split, DecodeBase, ReadNumber, Base;
    FieldsFree(w);
    SplitJoin(Fields(w), ',');
    var fs := Fields(w);
    assert fs[..11] == Base(w);
    BaseDecoded(w, fs);
    ReadModShown(w.packSize, UINT32);
    ReadShown(w.pageStride);
    ShownNumeric(w.pageStride);
  }

  /** The older forms: without the last fields, with the pack size, with an address, or with both.
      An address is recognized exactly when it is not a number. */
  lemma OlderForms(w: Info, addr: string)
    requires Valid(w) && addr != ""
    ensures var plain := w.(packSize := 1, pageStride := 0, addr := "");
            var pack := if w.packSize == 0 then 1 else w.packSize;
            && Decode(Base(w)) == Some(plain)
            && Decode(Base(w) + [Show(w.packSize)]) == Some(plain.(packSize := pack))
            && (Decode(Base(w) + [addr]) == Some(plain.(addr := addr)) <==> !IsNumeric(addr))
            && (Decode(Base(w) + [Show(w.packSize), addr]) == Some(plain.(packSize := pack, addr := addr)) <==> !IsNumeric(addr))
  {
    hide Show, DecodeBase, ReadNumber, Base, IsNumeric;
    var b := Base(w);
    assert b[..11] == b && (b + [addr])[..11] == b && (b + [Show(w.packSize)])[..11] == b && (b + [Show(w.packSize), addr])[..11] == b;
    BaseDecoded(w, b);
    BaseDecoded(w, b + [addr]);
    BaseDecoded(w, b + [Show(w.packSize)]);
    BaseDecoded(w, b + [Show(w.packSize), addr]);
    ReadModShown(w.packSize, UINT32);
    ShownNumeric(w.packSize);
  }
}
