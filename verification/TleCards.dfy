/**
 Two-line element sets: the writer that fits elements into the fixed columns, the validity check and the
 reader.
 */
module TleCards {
  import opened Basics
  import opened Decimal
  import opened CardLayout

  /** What is written. */
  datatype Source = Source(
    catnr: int, classd: char, idesg: string, epoch: real, elset: int, revnum: int,
    incl: real, raan: real, ecc: real, argp: real, ma: real, meanMotion: real)

  /** What is read. */
  datatype Elements = Elements(
    catnr: int, idesg: string, epoch: real, xndt2o: real, xndd6o: real, bstar: real, elset: int,
    xincl: real, xnodeo: real, eo: real, omegao: real, xmo: real, xno: real, revnum: int)

  // ---- Checksum ----

  function CharValue(c: char): nat {
    if IsDigit(c) then DigitValue(c) else if c == '-' then 1 else 0
  }

  function CharSum(s: string): nat {
    if s == "" then 0 else CharSum(s[..|s| - 1]) + CharValue(s[|s| - 1])
  }

  /** Digit sum of the first 68 columns, modulo ten: the writer's side. */
  method Checksum(line: array<char>) returns (sum: nat)
    requires line.Length >= 68
    ensures sum == CharSum(line[..68]) % 10
  {
    sum := 0;
    for i := 0 to 68
      invariant sum == CharSum(line[..i])
    {
      assert line[..i + 1][..i] == line[..i];
      var c := line[i];
      if '0' <= c && c <= '9' {
        sum := sum + DigitValue(c);
      } else if c == '-' {
        sum := sum + 1;
      }
    }
    sum := sum % 10;
  }

  /** The digit in column 69 is the checksum of the 68 before it: the reader's side. */
  predicate ChecksumGood(line: string)
    requires |line| >= 69
  {
    CharSum(line[..68]) % 10 == line[68] as int - '0' as int
  }

  /** The reader's checksum loop decides exactly that. */
  method CheckLine(line: string) returns (good: bool)
    requires |line| >= 69
    ensures good == ChecksumGood(line)
  {
    var checksum := 0;
    for i := 0 to 68
      invariant checksum == CharSum(line[..i])
    {
      assert line[..i + 1][..i] == line[..i];
      var value;
      if '0' <= line[i] && line[i] <= '9' {
        value := line[i] as int - '0' as int;
      } else if line[i] == '-' {
        value := 1;
      } else {
        value := 0;
      }
      checksum := checksum + value;
    }
    good := checksum % 10 == line[68] as int - '0' as int;
  }

  /** The validity check on two 69-column cards laid end to end. */
  predicate GoodElements(set_: string)
    requires |set_| == 138
  {
    && ChecksumGood(set_) && ChecksumGood(set_[69..])
    && set_[0] == '1' && set_[69] == '2'
    && set_[2..7] == set_[71..76]
    && set_[23] == '.' && set_[34] == '.' && set_[80] == '.' && set_[89] == '.'
    && set_[106] == '.' && set_[115] == '.' && set_[123] == '.'
    && set_[61..64] == " 0 "
  }

  // ---- What the validity check catches ----

  lemma {:induction false} SumOfChanged(s: string, k: nat, c: char)
    requires k < |s|
    ensures CharSum(s[k := c]) == CharSum(s) - CharValue(s[k]) + CharValue(c)
    decreases |s|
  {
    var n, t := |s| - 1, s[k := c];
    if k == n {
      assert t[..n] == s[..n];
    } else {
      SumOfChanged(s[..n], k, c);
      assert t[..n] == s[..n][k := c];
    }
  }

  lemma DigitErrorOnLine(line: string, k: nat, c: char)
    requires |line| >= 69 && k < 69 && ChecksumGood(line) && IsDigit(line[k]) && IsDigit(c) && c != line[k]
    ensures !ChecksumGood(line[k := c])
  {
    var t := line[k := c];
    if k < 68 {
      assert t[..68] == line[..68][k := c];
      SumOfChanged(line[..68], k, c);
    } else {
      assert t[..68] == line[..68];
    }
  }

  /** Any one digit of accepted cards changed to another digit is caught. */
  lemma DigitErrorIsCaught(t: string, k: nat, c: char)
    requires |t| == 138 && GoodElements(t) && k < 138 && IsDigit(t[k]) && IsDigit(c) && c != t[k]
    ensures !GoodElements(t[k := c])
  {
    if k < 69 {
      DigitErrorOnLine(t, k, c);
    } else {
      DigitErrorOnLine(t[69..], k - 69, c);
      assert t[k := c][69..] == t[69..][k - 69 := c];
    }
  }

  /** Columns with a fixed character: line numbers, decimal points and the three around the ephemeris type. */
  predicate IsFixedColumn(k: nat) {
    k in {0, 69, 23, 34, 80, 89, 106, 115, 123, 61, 62, 63}
  }

  /** Columns of the catalogue number on either card. */
  predicate IsCatalogueColumn(k: nat) {
    2 <= k < 7 || 71 <= k < 76
  }

  /** Any other character in a fixed column, or in a catalogue number on one card only, is caught. */
  lemma ShapeErrorIsCaught(t: string, k: nat, c: char)
    requires |t| == 138 && GoodElements(t) && k < 138 && c != t[k] && (IsFixedColumn(k) || IsCatalogueColumn(k))
    ensures !GoodElements(t[k := c])
  {
    var u := t[k := c];
    if IsCatalogueColumn(k) {
      var i := if k < 7 then k - 2 else k - 71;
      assert t[2..7][i] == t[71..76][i];
      assert u[2..7][i] != u[71..76][i];
    } else if 61 <= k < 64 {
      assert t[61..64][k - 61] == t[k] && u[61..64][k - 61] == c;
    }
  }

  // ---- Writing ----

  /** The conversion %-8.8s. */
  function Designator(s: string): (d: string)
    ensures |d| == 8
  {
    if |s| >= 8 then s[..8] else s + Spaces(8 - |s|)
  }

  /** Eccentricity times 10^7, rounded half away from zero and clamped to seven digits. */
  function Ecc7(e: real): (n: nat)
    ensures n <= 9999999
  {
    var y := e * 10000000.0;
    var r := if y >= 0.0 then (y + 0.5).Floor else -(-y + 0.5).Floor;
    if r < 0 then 0 else if r > 9999999 then 9999999 else r
  }

  function Fields1(cat: string, classd: char, desig: string, epoch: string, elset: string): seq<Field> {
    [Field(0, "1"), Field(2, cat), Field(7, [classd]), Field(9, desig), Field(18, epoch),
     Field(33, " .00000000"), Field(44, " 00000+0"), Field(53, " 00000+0"), Field(62, "0"), Field(64, elset)]
  }

  function Fields2(cat: string, incl: string, raan: string, ecc: string, argp: string, ma: string,
                   motion: string, revnum: string): seq<Field> {
    [Field(0, "2"), Field(2, cat), Field(8, incl), Field(17, raan), Field(26, ecc), Field(34, argp),
     Field(43, ma), Field(52, motion), Field(63, revnum)]
  }

  /** The first card: each value formatted and cut to its columns. */
  function Layout1(s: Source): seq<Field> {
    Fields1(IntText(s.catnr, 5)[..5], s.classd, Designator(s.idesg), ZeroField(s.epoch, 14, 8)[..14],
            IntText(s.elset, 4)[..4])
  }

  /** The second card. */
  function Layout2(s: Source): seq<Field> {
    Fields2(IntText(s.catnr, 5)[..5], FixedField(s.incl, 8, 4)[..8], FixedField(s.raan, 8, 4)[..8],
            Padded(Ecc7(s.ecc), 7), FixedField(s.argp, 8, 4)[..8], FixedField(s.ma, 8, 4)[..8],
            FixedField(s.meanMotion, 11, 8)[..11], IntText(s.revnum, 5)[..5])
  }

  lemma Fields1Ordered(cat: string, classd: char, desig: string, epoch: string, elset: string)
    requires |cat| == 5 && |desig| == 8 && |epoch| == 14 && |elset| == 4
    ensures var l := Fields1(cat, classd, desig, epoch, elset);
      Ordered(l) && LineEnd(l) == 68 && forall i :: 0 <= i < 10 ==> l[i].End() <= LINE
  {
  }

  lemma Fields2Ordered(cat: string, incl: string, raan: string, ecc: string, argp: string, ma: string,
                       motion: string, revnum: string)
    requires |cat| == 5 && |incl| == |raan| == |argp| == |ma| == 8 && |ecc| == 7 && |motion| == 11 && |revnum| == 5
    ensures var l := Fields2(cat, incl, raan, ecc, argp, ma, motion, revnum);
      Ordered(l) && LineEnd(l) == 68 && forall i :: 0 <= i < 9 ==> l[i].End() <= LINE
  {
  }

  lemma Layout1Ordered(s: Source)
    ensures Ordered(Layout1(s)) && LineEnd(Layout1(s)) == 68
    ensures forall i :: 0 <= i < 10 ==> Layout1(s)[i].End() <= LINE
  {
    Fields1Ordered(IntText(s.catnr, 5)[..5], s.classd, Designator(s.idesg), ZeroField(s.epoch, 14, 8)[..14],
                   IntText(s.elset, 4)[..4]);
  }

  lemma Layout2Ordered(s: Source)
    ensures Ordered(Layout2(s)) && LineEnd(Layout2(s)) == 68
    ensures forall i :: 0 <= i < 9 ==> Layout2(s)[i].End() <= LINE
  {
    Fields2Ordered(IntText(s.catnr, 5)[..5], FixedField(s.incl, 8, 4)[..8], FixedField(s.raan, 8, 4)[..8],
                   Padded(Ecc7(s.ecc), 7), FixedField(s.argp, 8, 4)[..8], FixedField(s.ma, 8, 4)[..8],
                   FixedField(s.meanMotion, 11, 8)[..11], IntText(s.revnum, 5)[..5]);
  }

  /** A line with its check digit. */
  ghost function Sealed(fields: seq<Field>): (card: string)
    requires Ordered(fields) && LineEnd(fields) == 68
    ensures |card| == 69
  {
    Render(fields) + [DigitChar(CharSum(Render(fields)) % 10)]
  }

  ghost function Card1(s: Source): (card: string)
    ensures |card| == 69
  {
    Layout1Ordered(s);
    Sealed(Layout1(s))
  }

  ghost function Card2(s: Source): (card: string)
    ensures |card| == 69
  {
    Layout2Ordered(s);
    Sealed(Layout2(s))
  }

  /** Write the check digit over column 69. */
  method Seal(line: array<char>, ghost fields: seq<Field>)
    requires Ordered(fields) && LineEnd(fields) == 68 && Filled(line, fields)
    modifies line
    ensures line.Length == 70 && line[..69] == Sealed(fields)
  {
    assert line[..68] == Render(fields);
    var sum := Checksum(line);
    line[68] := ('0' as int + sum) as char;
    assert line[..69] == line[..68] + [line[68]];
  }

  /** The two cards, each written in place on a blank line and sealed with its check digit. */
  method FormatTle(s: Source) returns (card1: array<char>, card2: array<char>)
    ensures fresh(card1) && card1.Length == 70 && card1[..69] == Card1(s)
    ensures fresh(card2) && card2.Length == 70 && card2[..69] == Card2(s)
  {
    card1 := WriteCard(Layout1(s), s);
    card2 := WriteCard(Layout2(s), s);
  }

  method WriteCard(fields: seq<Field>, ghost s: Source) returns (card: array<char>)
    requires fields == Layout1(s) || fields == Layout2(s)
    ensures fresh(card) && card.Length == 70
    ensures fields == Layout1(s) ==> card[..69] == Card1(s)
    ensures fields == Layout2(s) ==> card[..69] == Card2(s)
  {
    Layout1Ordered(s);
    Layout2Ordered(s);
    card := Blank();
    WriteFields(card, fields);
    Seal(card, fields);
  }

  // ---- Reading ----

  /** The designator without its trailing white space, but never less than one character. */
  function Trimmed(d: string): string
    requires |d| >= 1
  {
    if |d| > 1 && IsSpace(d[|d| - 1]) then Trimmed(d[..|d| - 1]) else d
  }

  method TrimDesignator(d: string) returns (r: string)
    requires |d| == 8
    ensures r == Trimmed(d)
  {
    r := d;
    var i := 7;
    while i != 0 && IsSpace(d[i])
      invariant 0 <= i <= 7 && r == d[..i + 1] && Trimmed(r) == Trimmed(d)
    {
      r := r[..i];
      i := i - 1;
    }
  }

  /** The values in the columns of two cards laid end to end. */
  function Read(t: string): Elements
    requires |t| == 138
  {
    Elements(
      Atoi(t[2..7]),
      Trimmed(t[9..17]),
      Atof(t[18..32]),
      Atof(t[33..43]),
      Atof(DragText(t, 44)),
      Atof(DragText(t, 53)),
      Atoi(t[64..68]),
      Atof(t[77..85]),
      Atof(t[86..94]),
      Atof("." + t[95..102]),
      Atof(t[103..111]),
      Atof(t[112..120]),
      Atof(t[121..131]),
      Trunc(Atof(t[132..137])))
  }

  // ---- What is written is accepted, and read back ----

  /** The values the tool lets through, each fitting its columns; the mean motion is left open. */
  predicate Fits(s: Source) {
    && 0 <= s.catnr <= 99999 && 0 <= s.elset <= 9999 && 0 <= s.revnum <= 99999
    && 0.0 <= s.epoch && Scaled(s.epoch, 8) < Pow10(13)
    && 0.0 <= s.incl && Scaled(s.incl, 4) < Pow10(7)
    && 0.0 <= s.raan && Scaled(s.raan, 4) < Pow10(7)
    && 0.0 <= s.argp && Scaled(s.argp, 4) < Pow10(7)
    && 0.0 <= s.ma && Scaled(s.ma, 4) < Pow10(7)
    && 0.0 <= s.meanMotion
  }

  /** The mean motion needs at most two digits before the point. */
  predicate TwoDigitMotion(s: Source) {
    Scaled(s.meanMotion, 8) < Pow10(10)
  }

  lemma Powers()
    ensures Pow10(4) == 10000 && Pow10(5) == 100000 && Pow10(7) == 10000000 && Pow10(8) == 100000000
    ensures Pow10(10) == 10000000000
  {
    assert Pow10(2) == 100;
    assert Pow10(4) == 10000;
    assert Pow10(6) == 1000000;
    assert Pow10(8) == 100000000;
  }

  ghost function Both(s: Source): (t: string)
    ensures |t| == 138
  {
    Card1(s) + Card2(s)
  }

  /** A field of a sealed line, found at its column from where the line starts. */
  lemma SealedField(pre: string, fields: seq<Field>, post: string, i: nat)
    requires Ordered(fields) && LineEnd(fields) == 68 && i < |fields|
    ensures fields[i].End() <= 68
    ensures var f, k := fields[i], |pre|;
      (pre + Sealed(fields) + post)[k + f.off..k + f.End()] == f.text
  {
    FieldAt(fields, i);
    var f, r, t := fields[i], Render(fields), pre + Sealed(fields) + post;
    assert t[|pre|..|pre| + 68] == r;
    assert t[|pre| + f.off..|pre| + f.End()] == r[f.off..f.End()];
  }

  lemma FirstOfTwo(fields: seq<Field>, post: string, i: nat)
    requires Ordered(fields) && LineEnd(fields) == 68 && i < |fields|
    ensures fields[i].End() <= 68
    ensures (Sealed(fields) + post)[fields[i].off..fields[i].End()] == fields[i].text
  {
    SealedField("", fields, post, i);
    assert "" + Sealed(fields) + post == Sealed(fields) + post;
  }

  lemma SecondOfTwo(pre: string, fields: seq<Field>, i: nat)
    requires Ordered(fields) && LineEnd(fields) == 68 && i < |fields|
    ensures fields[i].End() <= 68
    ensures (pre + Sealed(fields))[|pre| + fields[i].off..|pre| + fields[i].End()] == fields[i].text
  {
    SealedField(pre, fields, "", i);
    assert pre + Sealed(fields) + "" == pre + Sealed(fields);
  }

  /** A field of the first card, where the reader looks for it. */
  lemma Column1(s: Source, i: nat, f: Field)
    requires i < 10 && f == Layout1(s)[i]
    ensures f.End() <= 68 && Both(s)[f.off..f.End()] == f.text
  {
    Layout1Ordered(s);
    FirstOfTwo(Layout1(s), Card2(s), i);
  }

  lemma SecondOnCards(pre: string, fields: seq<Field>, both: string, i: nat, f: Field)
    requires Ordered(fields) && LineEnd(fields) == 68 && i < |fields| && f == fields[i]
    requires |pre| == 69 && both == pre + Sealed(fields)
    ensures f.End() <= 68 && both[69 + f.off..69 + f.End()] == f.text
  {
    SecondOfTwo(pre, fields, i);
  }

  /** A field of the second card, where the reader looks for it. */
  lemma Column2(s: Source, i: nat, f: Field)
    requires i < 9 && f == Layout2(s)[i]
    ensures f.End() <= 68 && Both(s)[69 + f.off..69 + f.End()] == f.text
  {
    Layout2Ordered(s);
    SecondOnCards(Card1(s), Layout2(s), Both(s), i, f);
  }

  lemma SealedIsGood(fields: seq<Field>, rest: string)
    requires Ordered(fields) && LineEnd(fields) == 68
    ensures ChecksumGood(Sealed(fields) + rest)
  {
    var line := Sealed(fields) + rest;
    assert line[..68] == Render(fields);
  }

  /** Both check digits agree. */
  lemma ChecksumsAgree(s: Source)
    ensures ChecksumGood(Both(s)) && ChecksumGood(Both(s)[69..])
  {
    Layout1Ordered(s);
    Layout2Ordered(s);
    SealedIsGood(Layout1(s), Card2(s));
    SealedIsGood(Layout2(s), "");
    assert Both(s)[69..] == Card2(s) + "";
  }

  lemma AloneBetweenBlanks(fields: seq<Field>, post: string)
    requires |fields| == 10 && Ordered(fields) && LineEnd(fields) == 68
    requires fields[7].End() == 61 && fields[8] == Field(62, "0") && fields[9].off == 64
    ensures (Sealed(fields) + post)[61..64] == " 0 "
  {
    var t := Sealed(fields) + post;
    GapAt(fields, 7, 61);
    GapAt(fields, 8, 63);
    FirstOfTwo(fields, post, 8);
    assert t[62..63][0] == t[62];
    assert t[61] == Render(fields)[61] && t[63] == Render(fields)[63];
  }

  /** The ephemeris type stands alone between two blanks. */
  lemma EphemerisColumn(s: Source)
    ensures Both(s)[61..64] == " 0 "
  {
    Layout1Ordered(s);
    AloneBetweenBlanks(Layout1(s), Card2(s));
  }

  // The text in each range of columns that the check or the reader looks at.

  lemma HeadColumns(s: Source)
    ensures Both(s)[0] == '1' && Both(s)[69] == '2'
  {
    Column1(s, 0, Field(0, "1"));
    assert Both(s)[0..1][0] == '1';
    Column2(s, 0, Field(0, "2"));
    assert Both(s)[69..70][0] == '2';
  }

  lemma CatalogueColumn1(s: Source)
    ensures Both(s)[2..7] == IntText(s.catnr, 5)[..5]
  {
    Column1(s, 1, Field(2, IntText(s.catnr, 5)[..5]));
  }

  lemma CatalogueColumn2(s: Source)
    ensures Both(s)[71..76] == IntText(s.catnr, 5)[..5]
  {
    Column2(s, 1, Field(2, IntText(s.catnr, 5)[..5]));
  }

  lemma DesignatorColumn(s: Source)
    ensures Both(s)[9..17] == Designator(s.idesg)
  {
    Column1(s, 3, Field(9, Designator(s.idesg)));
  }

  lemma EpochColumn(s: Source)
    ensures Both(s)[18..32] == ZeroField(s.epoch, 14, 8)[..14]
  {
    Column1(s, 4, Field(18, ZeroField(s.epoch, 14, 8)[..14]));
  }

  lemma MotionRateColumn(s: Source)
    ensures Both(s)[33..43] == " .00000000"
  {
    Column1(s, 5, Field(33, " .00000000"));
  }

  lemma DragColumns(s: Source)
    ensures Both(s)[44..52] == " 00000+0" && Both(s)[53..61] == " 00000+0"
  {
    Column1(s, 6, Field(44, " 00000+0"));
    Column1(s, 7, Field(53, " 00000+0"));
  }

  lemma ElementSetColumn(s: Source)
    ensures Both(s)[64..68] == IntText(s.elset, 4)[..4]
  {
    Column1(s, 9, Field(64, IntText(s.elset, 4)[..4]));
  }

  lemma InclinationColumn(s: Source)
    ensures Both(s)[77..85] == FixedField(s.incl, 8, 4)[..8]
  {
    var f := Field(8, FixedField(s.incl, 8, 4)[..8]);
    assert f == Layout2(s)[2] && f.End() == 16;
    Column2(s, 2, f);
  }

  lemma NodeColumn(s: Source)
    ensures Both(s)[86..94] == FixedField(s.raan, 8, 4)[..8]
  {
    Column2(s, 3, Field(17, FixedField(s.raan, 8, 4)[..8]));
  }

  lemma EccentricityColumn(s: Source)
    ensures Both(s)[95..102] == Padded(Ecc7(s.ecc), 7)
  {
    Column2(s, 4, Field(26, Padded(Ecc7(s.ecc), 7)));
  }

  lemma PerigeeColumn(s: Source)
    ensures Both(s)[103..111] == FixedField(s.argp, 8, 4)[..8]
  {
    Column2(s, 5, Field(34, FixedField(s.argp, 8, 4)[..8]));
  }

  lemma AnomalyColumn(s: Source)
    ensures Both(s)[112..120] == FixedField(s.ma, 8, 4)[..8]
  {
    Column2(s, 6, Field(43, FixedField(s.ma, 8, 4)[..8]));
  }

  lemma MotionColumn(s: Source)
    ensures Both(s)[121..132] == FixedField(s.meanMotion, 11, 8)[..11]
  {
    Column2(s, 7, Field(52, FixedField(s.meanMotion, 11, 8)[..11]));
  }

  lemma RevolutionColumn(s: Source)
    ensures Both(s)[132..137] == IntText(s.revnum, 5)[..5]
  {
    Column2(s, 8, Field(63, IntText(s.revnum, 5)[..5]));
  }

  /** Every range of columns that the reader looks at holds its field. */
  ghost predicate Columns(t: string, s: Source) {
    && |t| == 138 && t[0] == '1' && t[69] == '2' && t[61..64] == " 0 "
    && t[2..7] == IntText(s.catnr, 5)[..5] && t[71..76] == IntText(s.catnr, 5)[..5]
    && t[9..17] == Designator(s.idesg) && t[18..32] == ZeroField(s.epoch, 14, 8)[..14]
    && t[33..43] == " .00000000" && t[44..52] == " 00000+0" && t[53..61] == " 00000+0"
    && t[64..68] == IntText(s.elset, 4)[..4]
    && t[77..85] == FixedField(s.incl, 8, 4)[..8] && t[86..94] == FixedField(s.raan, 8, 4)[..8]
    && t[95..102] == Padded(Ecc7(s.ecc), 7)
    && t[103..111] == FixedField(s.argp, 8, 4)[..8] && t[112..120] == FixedField(s.ma, 8, 4)[..8]
    && t[121..132] == FixedField(s.meanMotion, 11, 8)[..11] && t[132..137] == IntText(s.revnum, 5)[..5]
  }

  lemma BothColumns(s: Source)
    ensures Columns(Both(s), s)
  {
    HeadColumns(s);
    EphemerisColumn(s);
    CatalogueColumn1(s);
    CatalogueColumn2(s);
    DesignatorColumn(s);
    EpochColumn(s);
    MotionRateColumn(s);
    DragColumns(s);
    ElementSetColumn(s);
    InclinationColumn(s);
    NodeColumn(s);
    EccentricityColumn(s);
    PerigeeColumn(s);
    AnomalyColumn(s);
    MotionColumn(s);
    RevolutionColumn(s);
  }

  // ---- What each text reads as ----

  predicate Within(a: real, b: real, e: real) {
    -e <= a - b <= e
  }

  lemma FourDecimals(y: real)
    ensures Down(y, 4) == y / 10000.0 && Up(y, 4) == 10000.0 * y
  {
    assert Down(y, 1) == Down(y, 0) / 10.0 && Up(y, 1) == 10.0 * Up(y, 0);
    assert Down(y, 2) == Down(y, 1) / 10.0 && Up(y, 2) == 10.0 * Up(y, 1);
    assert Down(y, 3) == Down(y, 2) / 10.0 && Up(y, 3) == 10.0 * Up(y, 2);
  }

  lemma EightDecimals(y: real)
    ensures Down(y, 7) == y / 10000000.0
    ensures Down(y, 8) == y / 100000000.0 && Up(y, 8) == 100000000.0 * y
  {
    FourDecimals(y);
    assert Down(y, 5) == Down(y, 4) / 10.0 && Up(y, 5) == 10.0 * Up(y, 4);
    assert Down(y, 6) == Down(y, 5) / 10.0 && Up(y, 6) == 10.0 * Up(y, 5);
    assert Down(y, 7) == Down(y, 6) / 10.0 && Up(y, 7) == 10.0 * Up(y, 6);
  }

  /** Rounding to p decimals moves a value by at most half a unit of the last. */
  lemma Rounded4(x: real)
    requires x >= 0.0
    ensures Within(Down(Scaled(x, 4) as real, 4), x, 0.00005)
  {
    FourDecimals(x);
    FourDecimals(Scaled(x, 4) as real);
  }

  lemma Rounded8(x: real)
    requires x >= 0.0
    ensures Within(Down(Scaled(x, 8) as real, 8), x, 0.000000005)
  {
    EightDecimals(x);
    EightDecimals(Scaled(x, 8) as real);
  }

  lemma EpochText(x: real, t: string)
    requires x >= 0.0 && Scaled(x, 8) < Pow10(13) && t == ZeroField(x, 14, 8)[..14]
    ensures |t| == 14 && t[5] == '.' && Within(Atof(t), x, 0.000000005)
  {
    ZeroColumn(x, 14, 8);
    assert t == ZeroField(x, 14, 8);
    AtofZeroField(x, 14, 8);
    Rounded8(x);
  }

  lemma FixedFieldIs(x: real, w: nat, p: nat)
    requires x >= 0.0
    ensures FixedField(x, w, p) == PadLeft(PointText(Scaled(x, p), p), w)
  {
    assert FixedText(x, p) == PointText(Scaled(x, p), p);
  }

  lemma AngleText(x: real, t: string)
    requires x >= 0.0 && Scaled(x, 4) < Pow10(7) && t == FixedField(x, 8, 4)[..8]
    ensures |t| == 8 && t[3] == '.' && Within(Atof(t), x, 0.00005)
  {
    FixedFieldIs(x, 8, 4);
    PointColumn(Scaled(x, 4), 8, 4);
    assert t == FixedField(x, 8, 4);
    AtofFixedField(x, 8, 4);
    Rounded4(x);
  }

  lemma EccText(n: nat)
    requires n <= 9999999
    ensures Atof("." + Padded(n, 7)) == n as real / 10000000.0
  {
    assert High(n, 7) == 0 by { Powers(); HighZero(n, 7); }
    assert Spaces(0) + "" + "." + Padded(n, 7) == "." + Padded(n, 7);
    AtofDigits(0, "", n, 7);
    EightDecimals(n as real);
  }

  /** The point of the mean motion is in its third column exactly when two digits are enough before it. */
  lemma MotionText(x: real, t: string)
    requires x >= 0.0 && t == FixedField(x, 11, 8)[..11]
    ensures t[2] == '.' <==> Scaled(x, 8) < Pow10(10)
  {
    FixedFieldIs(x, 11, 8);
    PointColumn(Scaled(x, 8), 11, 8);
  }

  /** Without its last column the mean motion is cut to seven decimals. */
  lemma ClippedMotion(n: nat, text: string)
    requires n < Pow10(10) && text == PadLeft(PointText(n, 8), 11)
    ensures |text| == 11 && Atof(text[..10]) == (n / 10) as real / 10000000.0
  {
    var p := PointText(n, 8);
    PointColumn(n, 11, 8);
    AtofClipped(11 - |p|, n, 8, text);
    EightDecimals((n / 10) as real);
  }

  lemma MotionError(x: real)
    requires x >= 0.0
    ensures -0.000000005 <= x - (Scaled(x, 8) / 10) as real / 10000000.0 <= 0.000000095
  {
    Rounded8(x);
    EightDecimals(Scaled(x, 8) as real);
    var n := Scaled(x, 8);
    assert n == 10 * (n / 10) + n % 10;
  }

  /** The text the reader rebuilds from a drag field that starts in column k. */
  function DragText(t: string, k: nat): string
    requires k + 8 <= |t|
  {
    t[k..k + 1] + "." + t[k + 1..k + 6] + "E" + t[k + 6..k + 8]
  }

  /** A drag field in columns k to k + 7: sign or blank, five digits, exponent sign, exponent digit. */
  predicate IsDragField(t: string, k: nat)
    requires k + 8 <= |t|
  {
    && (IsSign(t[k]) || t[k] == ' ') && AllDigits(t[k + 1..k + 6])
    && IsSign(t[k + 6]) && IsDigit(t[k + 7])
  }

  /** v is the number a drag field stands for: five digits after an implied point, times ten to the exponent. */
  ghost predicate IsDragValue(v: real, t: string, k: nat)
    requires k + 8 <= |t| && IsDragField(t, k)
  {
    IsScientific(v, t[k] == '-', NatOf(t[k + 1..k + 6]), 5, t[k + 6] == '-', DigitValue(t[k + 7]))
  }

  lemma DragTextIs(t: string, k: nat)
    requires k + 8 <= |t|
    ensures DragText(t, k) == [t[k]] + "." + t[k + 1..k + 6] + ("E" + [t[k + 6]] + [t[k + 7]])
  {
    assert t[k..k + 1] == [t[k]] && t[k + 6..k + 8] == [t[k + 6]] + [t[k + 7]];
  }

  lemma DragReads(t: string, k: nat)
    requires k + 8 <= |t| && IsDragField(t, k)
    ensures IsDragValue(Atof(DragText(t, k)), t, k)
  {
    DragTextIs(t, k);
    AtofScientific(t[k], t[k + 1..k + 6], t[k + 6], t[k + 7], DragText(t, k));
  }

  /**
   On any cards, the drag terms are read from their own columns as what those columns stand for, with their signs
   and exponents: the first derivative as a signed eight-decimal fraction, the second derivative and the drag term
   as five digits with an exponent.
   */
  lemma DragTermsRead(t: string)
    requires |t| == 138
    ensures (IsSign(t[33]) || t[33] == ' ') && t[34] == '.' && AllDigits(t[35..43]) ==>
      IsScientific(Read(t).xndt2o, t[33] == '-', NatOf(t[35..43]), 8, false, 0)
    ensures IsDragField(t, 44) ==> IsDragValue(Read(t).xndd6o, t, 44)
    ensures IsDragField(t, 53) ==> IsDragValue(Read(t).bstar, t, 53)
  {
    if (IsSign(t[33]) || t[33] == ' ') && t[34] == '.' && AllDigits(t[35..43]) {
      assert t[33..43] == [t[33]] + "." + t[35..43];
      AtofFraction(t[33], t[35..43], t[33..43]);
    }
    if IsDragField(t, 44) { DragReads(t, 44); }
    if IsDragField(t, 53) { DragReads(t, 53); }
  }

  lemma DragIsZero(t: string, k: nat)
    requires k + 8 <= |t| && t[k..k + 8] == " 00000+0"
    ensures Atof(DragText(t, k)) == 0.0
  {
    var f := t[k..k + 8];
    assert forall i :: 0 <= i < 8 ==> t[k + i] == f[i];
    assert f[0] == ' ' && f[1] == f[2] == f[3] == f[4] == f[5] == '0' && f[6] == '+' && f[7] == '0';
    var z := t[k + 1..k + 6];
    assert forall i :: 0 <= i < 5 ==> z[i] == f[1 + i] == '0';
    assert t[k..k + 1] == Spaces(1);
    var rest := "E" + t[k + 6..k + 8];
    AtofZeros(1, z, rest);
    assert DragText(t, k) == Spaces(1) + "." + z + rest;
  }

  // ---- Acceptance ----

  lemma PointAt(t: string, k: nat, x: real)
    requires k + 8 <= |t| && x >= 0.0 && Scaled(x, 4) < Pow10(7) && t[k..k + 8] == FixedField(x, 8, 4)[..8]
    ensures t[k + 3] == '.'
  {
    AngleText(x, t[k..k + 8]);
    assert t[k..k + 8][3] == t[k + 3];
  }

  lemma EpochPoint(t: string, x: real)
    requires |t| == 138 && x >= 0.0 && Scaled(x, 8) < Pow10(13)
    requires t[18..32] == ZeroField(x, 14, 8)[..14] && t[33..43] == " .00000000"
    ensures t[23] == '.' && t[34] == '.'
  {
    EpochText(x, t[18..32]);
    assert t[18..32][5] == t[23];
    assert t[33..43][1] == t[34];
  }

  lemma PointsInPlace(t: string, s: Source)
    requires Columns(t, s) && Fits(s)
    ensures t[23] == '.' && t[34] == '.' && t[80] == '.' && t[89] == '.' && t[106] == '.' && t[115] == '.'
  {
    EpochPoint(t, s.epoch);
    PointAt(t, 77, s.incl);
    PointAt(t, 86, s.raan);
    PointAt(t, 103, s.argp);
    PointAt(t, 112, s.ma);
  }

  lemma MotionPoint(t: string, x: real)
    requires |t| == 138 && x >= 0.0 && t[121..132] == FixedField(x, 11, 8)[..11]
    ensures t[123] == '.' <==> Scaled(x, 8) < Pow10(10)
  {
    MotionText(x, t[121..132]);
    assert t[121..132][2] == t[123];
  }

  /**
   The two cards pass the validity check, for any designator and classification, exactly when the mean
   motion needs no third digit before its point.
   */
  lemma AcceptedIff(s: Source)
    requires Fits(s)
    ensures GoodElements(Both(s)) <==> TwoDigitMotion(s)
  {
    ChecksumsAgree(s);
    BothColumns(s);
    PointsInPlace(Both(s), s);
    MotionPoint(Both(s), s.meanMotion);
  }

  // ---- Reading back ----

  /** The counters, the designator and the drag terms. */
  ghost predicate CountersMatch(r: Elements, s: Source) {
    && r.catnr == s.catnr && r.elset == s.elset && r.revnum == s.revnum
    && r.idesg == Trimmed(Designator(s.idesg))
    && r.xndt2o == 0.0 && r.xndd6o == 0.0 && r.bstar == 0.0
  }

  /** The epoch and the angles, to half a unit of their last decimal. */
  ghost predicate AnglesMatch(r: Elements, s: Source) {
    && Within(r.epoch, s.epoch, 0.000000005)
    && Within(r.xincl, s.incl, 0.00005) && Within(r.xnodeo, s.raan, 0.00005)
    && Within(r.omegao, s.argp, 0.00005) && Within(r.xmo, s.ma, 0.00005)
  }

  /** The eccentricity to half of 1e-7; the mean motion cut, not rounded, to seven decimals. */
  ghost predicate ShapeMatches(r: Elements, s: Source) {
    && r.eo == Ecc7(s.ecc) as real / 10000000.0
    && (0.0 <= s.ecc <= 0.9999999 ==> Within(r.eo, s.ecc, 0.00000005))
    && r.xno == (Scaled(s.meanMotion, 8) / 10) as real / 10000000.0
    && -0.000000005 <= s.meanMotion - r.xno <= 0.000000095
  }

  lemma IntegerText(n: nat, w: nat)
    requires (w == 4 && n <= 9999) || (w == 5 && n <= 99999)
    ensures Atoi(IntText(n, w)[..w]) == n && Trunc(Atof(IntText(n, w)[..w])) == n
  {
    Powers();
    IntTextWidth(n, w);
    assert IntText(n, w)[..w] == IntText(n, w);
    AtoiIntText(n, w);
    AtofIntText(n, w);
  }

  lemma CountersReadBack(t: string, s: Source)
    requires Columns(t, s) && Fits(s)
    ensures Atoi(t[2..7]) == s.catnr && Atoi(t[64..68]) == s.elset && Trunc(Atof(t[132..137])) == s.revnum
  {
    IntegerText(s.catnr, 5);
    IntegerText(s.elset, 4);
    IntegerText(s.revnum, 5);
  }

  lemma ZerosReadBack(t: string)
    requires |t| == 138 && t[33..43] == " .00000000" && t[44..52] == " 00000+0" && t[53..61] == " 00000+0"
    ensures Atof(t[33..43]) == 0.0 && Atof(DragText(t, 44)) == 0.0 && Atof(DragText(t, 53)) == 0.0
  {
    assert " .00000000" == Spaces(1) + "." + "00000000" + "";
    AtofZeros(1, "00000000", "");
    DragIsZero(t, 44);
    DragIsZero(t, 53);
  }

  lemma AnglesReadBack(t: string, s: Source)
    requires Columns(t, s) && Fits(s)
    ensures Within(Atof(t[18..32]), s.epoch, 0.000000005)
    ensures Within(Atof(t[77..85]), s.incl, 0.00005) && Within(Atof(t[86..94]), s.raan, 0.00005)
    ensures Within(Atof(t[103..111]), s.argp, 0.00005) && Within(Atof(t[112..120]), s.ma, 0.00005)
  {
    EpochText(s.epoch, t[18..32]);
    AngleText(s.incl, t[77..85]);
    AngleText(s.raan, t[86..94]);
    AngleText(s.argp, t[103..111]);
    AngleText(s.ma, t[112..120]);
  }

  lemma EccError(e: real)
    ensures 0.0 <= e <= 0.9999999 ==> Within(Ecc7(e) as real / 10000000.0, e, 0.00000005)
  {
    if 0.0 <= e <= 0.9999999 {
      var y := e * 10000000.0;
      assert Ecc7(e) == (y + 0.5).Floor;
    }
  }

  lemma MotionReadsBack(t: string, x: real)
    requires |t| == 138 && x >= 0.0 && Scaled(x, 8) < Pow10(10) && t[121..132] == FixedField(x, 11, 8)[..11]
    ensures Atof(t[121..131]) == (Scaled(x, 8) / 10) as real / 10000000.0
  {
    var text := FixedField(x, 11, 8);
    FixedFieldIs(x, 11, 8);
    ClippedMotion(Scaled(x, 8), text);
    assert text[..11] == text;
    assert t[121..131] == t[121..132][..10];
  }

  lemma ReadsColumns(t: string, s: Source)
    requires Columns(t, s) && Fits(s) && TwoDigitMotion(s)
    ensures CountersMatch(Read(t), s) && AnglesMatch(Read(t), s) && ShapeMatches(Read(t), s)
  {
    CountersReadBack(t, s);
    ZerosReadBack(t);
    AnglesReadBack(t, s);
    EccText(Ecc7(s.ecc));
    EccError(s.ecc);
    MotionReadsBack(t, s.meanMotion);
    MotionError(s.meanMotion);
  }

  /** Reading back what was written recovers it, to the decimals that are written and read. */
  lemma ReadBack(s: Source)
    requires Fits(s) && TwoDigitMotion(s)
    ensures CountersMatch(Read(Both(s)), s) && AnglesMatch(Read(Both(s)), s) && ShapeMatches(Read(Both(s)), s)
  {
    BothColumns(s);
    ReadsColumns(Both(s), s);
  }

  /** Write both cards and check them with the reader's own test before they are emitted. */
  method Emit(s: Source) returns (ok: bool, set_: string)
    ensures |set_| == 138 && ok == GoodElements(set_)
    ensures Fits(s) ==> (ok <==> TwoDigitMotion(s))
    ensures Fits(s) && ok ==>
      CountersMatch(Read(set_), s) && AnglesMatch(Read(set_), s) && ShapeMatches(Read(set_), s)
  {
    var card1, card2 := FormatTle(s);
    set_ := card1[..69] + card2[..69];
    assert set_ == Both(s);
    ok := GoodElements(set_);
    if Fits(s) {
      AcceptedIff(s);
      if ok { ReadBack(s); }
    }
  }
}
