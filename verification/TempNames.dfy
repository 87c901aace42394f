/** Names of the chunk files: printing a byte range into a file name and reading it back.
    A restart has nothing else to go by, so the two functions must be inverse. */
module TempNames {
  import opened Basics

  const MAX_INT64 := 0x7fff_ffff_ffff_ffff
  const MIN_INT64 := -0x8000_0000_0000_0000

  // ---------- decimal printing and parsing ----------

  function DigitChar(d: nat): char
    requires d < 10
  {
    '0' + d as char
  }

  predicate IsDigit(c: char) { '0' <= c <= '9' }

  function Decimal(n: nat): (s: string)
    ensures |s| > 0 && forall k :: 0 <= k < |s| ==> IsDigit(s[k])
  {
    if n < 10 then [DigitChar(n)] else Decimal(n / 10) + [DigitChar(n % 10)]
  }

  /** The verb %d on a signed number. */
  function FormatInt(n: int): string {
    if n < 0 then "-" + Decimal(-n) else Decimal(n)
  }

  function DigitsValue(s: string): Option<nat> {
    if s == "" then Some(0)
    else
      var c := s[|s| - 1];
      match DigitsValue(s[..|s| - 1])
      case Some(v) => if IsDigit(c) then Some(10 * v + (c - '0') as nat) else None
      case None => None
  }

  /** strconv.ParseInt(s, 10, 64): an optional sign, at least one digit, in range. */
  function ParseInt64(s: string): Option<int> {
    if s == "" then None
    else
      var signed := s[0] == '+' || s[0] == '-';
      var digits := if signed then s[1..] else s;
      if digits == "" then None
      else
        match DigitsValue(digits)
        case None => None
        case Some(v) =>
          var n: int := if s[0] == '-' then -(v as int) else v;
          if MIN_INT64 <= n <= MAX_INT64 then Some(n) else None
  }

  lemma {:induction false} DigitsValueOfDecimal(n: nat)
    ensures DigitsValue(Decimal(n)) == Some(n)
  {
    if n >= 10 {
      DigitsValueOfDecimal(n / 10);
      assert Decimal(n)[..|Decimal(n)| - 1] == Decimal(n / 10);
    } else {
      assert Decimal(n)[..0] == "";
    }
  }

  lemma ParseOfDecimal(n: nat)
    ensures ParseInt64(Decimal(n)) == if n <= MAX_INT64 then Some(n) else None
  {
    DigitsValueOfDecimal(n);
    assert IsDigit(Decimal(n)[0]);
  }

  // ---------- splitting at '-' and taking the base name ----------

  function Split(s: string, sep: char): (parts: seq<string>)
    ensures |parts| > 0
  {
    if s == "" then [""]
    else
      var rest := Split(s[1..], sep);
      if s[0] == sep then [""] + rest else [[s[0]] + rest[0]] + rest[1..]
  }

  lemma {:induction false} SplitAtFirst(a: string, b: string, sep: char)
    requires sep !in a
    ensures Split(a + [sep] + b, sep) == [a] + Split(b, sep)
  {
    var s := a + [sep] + b;
    if a == "" {
      assert s[1..] == b;
    } else {
      SplitAtFirst(a[1..], b, sep);
      assert s[1..] == a[1..] + [sep] + b;
      assert [a[0]] + a[1..] == a;
    }
  }

  lemma {:induction false} SplitWithoutSeparator(a: string, sep: char)
    requires sep !in a
    ensures Split(a, sep) == [a]
  {
    if a != "" {
      SplitWithoutSeparator(a[1..], sep);
      assert [a[0]] + a[1..] == a;
    }
  }

  function TrimTrailingSlashes(path: string): string {
    if path != "" && path[|path| - 1] == '/' then TrimTrailingSlashes(path[..|path| - 1]) else path
  }

  function AfterLastSlash(path: string): string {
    if path == "" || path[|path| - 1] == '/' then ""
    else AfterLastSlash(path[..|path| - 1]) + [path[|path| - 1]]
  }

  /** filepath.Base */
  function Base(path: string): string {
    if path == "" then "."
    else
      var name := AfterLastSlash(TrimTrailingSlashes(path));
      if name == "" then "/" else name
  }

  /** filepath.Join of a cleaned directory and a plain file name. */
  function Join(dir: string, name: string): string {
    if dir == "" then name
    else if dir[|dir| - 1] == '/' then dir + name
    else dir + "/" + name
  }

  lemma {:induction false} AfterLastSlashOfAppend(dir: string, name: string)
    requires '/' !in name
    requires dir == "" || dir[|dir| - 1] == '/'
    ensures AfterLastSlash(dir + name) == name
  {
    var path := dir + name;
    if name == "" {
      assert path == dir;
    } else {
      var shorter := name[..|name| - 1];
      AfterLastSlashOfAppend(dir, shorter);
      assert path[..|path| - 1] == dir + shorter;
      assert path[|path| - 1] == name[|name| - 1];
      assert name == shorter + [name[|name| - 1]];
    }
  }

  lemma BaseOfJoin(dir: string, name: string)
    requires name != "" && '/' !in name
    ensures Base(Join(dir, name)) == name
  {
    var path := Join(dir, name);
    assert path[|path| - 1] == name[|name| - 1];
    if dir == "" || dir[|dir| - 1] == '/' {
      AfterLastSlashOfAppend(dir, name);
      assert path == dir + name;
    } else {
      AfterLastSlashOfAppend(dir + "/", name);
      assert path == (dir + "/") + name;
    }
  }

  lemma JoinIsInjective(dir: string, a: string, b: string)
    requires Join(dir, a) == Join(dir, b)
    ensures a == b
  {
    var n := |Join(dir, a)| - |a|;
    assert Join(dir, a)[n..] == a && |a| == |b| && Join(dir, b)[n..] == b;
  }

  // ---------- the file name of a range ----------

  /** The base name "temp-<start>-<end>". */
  function RangeName(rangeStart: int, rangeEnd: int): string {
    "temp" + "-" + FormatInt(rangeStart) + "-" + FormatInt(rangeEnd)
  }

  function GetRangeTempFile(rangeStart: int, rangeEnd: int, workerDir: string): string {
    Join(workerDir, RangeName(rangeStart, rangeEnd))
  }

  /** (0, 0) stands for "not a chunk file", as in the source. */
  function GetRangeStartEnd(filename: string): (int, int) {
    var parts := Split(Base(filename), '-');
    if |parts| != 3 || parts[0] != "temp" then (0, 0)
    else
      match (ParseInt64(parts[1]), ParseInt64(parts[2]))
      case (Some(s), Some(e)) => (s, e)
      case _ => (0, 0)
  }

  lemma DecimalHasNo(n: nat, c: char)
    requires !IsDigit(c)
    ensures c !in Decimal(n)
  {
  }

  /** What a printed number contributes to the parts: a minus sign adds an empty one. */
  function SignedParts(n: int): seq<string> {
    if n < 0 then ["", Decimal(-n)] else [Decimal(n)]
  }

  lemma SplitAfterNumber(n: int, rest: string)
    ensures Split(FormatInt(n) + "-" + rest, '-') == SignedParts(n) + Split(rest, '-')
  {
    var digits := Decimal(if n < 0 then -n else n);
    DecimalHasNo(if n < 0 then -n else n, '-');
    SplitAtFirst(digits, rest, '-');
    assert "-" == ['-'];
    if n < 0 {
      SplitAtFirst("", digits + ['-'] + rest, '-');
      assert FormatInt(n) + "-" + rest == "" + ['-'] + (digits + ['-'] + rest);
    }
  }

  lemma SplitNumber(n: int)
    ensures Split(FormatInt(n), '-') == SignedParts(n)
  {
    var digits := Decimal(if n < 0 then -n else n);
    DecimalHasNo(if n < 0 then -n else n, '-');
    SplitWithoutSeparator(digits, '-');
    if n < 0 {
      SplitAtFirst("", digits, '-');
      assert FormatInt(n) == "" + ['-'] + digits;
    }
  }

  lemma RangeNameParts(s: int, e: int)
    ensures Split(RangeName(s, e), '-') == ["temp"] + (SignedParts(s) + SignedParts(e))
  {
    SplitNumber(e);
    SplitAfterNumber(s, FormatInt(e));
    var numbers := FormatInt(s) + "-" + FormatInt(e);
    SplitAtFirst("temp", numbers, '-');
    assert RangeName(s, e) == "temp" + ['-'] + numbers;
  }

  lemma RangeNameHasNoSlash(s: int, e: int)
    ensures '/' !in RangeName(s, e) && RangeName(s, e) != ""
  {
    DecimalHasNo(if s < 0 then -s else s, '/');
    DecimalHasNo(if e < 0 then -e else e, '/');
  }

  lemma NameParsesBack(s: int, e: int, dir: string)
    requires 0 <= s <= MAX_INT64 && 0 <= e <= MAX_INT64
    ensures GetRangeStartEnd(GetRangeTempFile(s, e, dir)) == (s, e)
  {
    RangeNameHasNoSlash(s, e);
    BaseOfJoin(dir, RangeName(s, e));
    RangeNameParts(s, e);
    ParseOfDecimal(s);
    ParseOfDecimal(e);
  }

  /** Printing then parsing is the identity exactly on the ranges without a negative bound. */
  lemma NameRoundTrip(s: int, e: int, dir: string)
    requires MIN_INT64 <= s <= MAX_INT64 && MIN_INT64 <= e <= MAX_INT64
    ensures GetRangeStartEnd(GetRangeTempFile(s, e, dir)) == (s, e) <==> s >= 0 && e >= 0
  {
    if s >= 0 && e >= 0 {
      NameParsesBack(s, e, dir);
    } else {
      RangeNameHasNoSlash(s, e);
      BaseOfJoin(dir, RangeName(s, e));
      RangeNameParts(s, e);
    }
  }

  /** Different ranges have different files, in the same directory or not. */
  lemma NamesAreInjective(s: int, e: int, s': int, e': int, dir: string, dir': string)
    requires 0 <= s <= MAX_INT64 && 0 <= e <= MAX_INT64
    requires 0 <= s' <= MAX_INT64 && 0 <= e' <= MAX_INT64
    requires GetRangeTempFile(s, e, dir) == GetRangeTempFile(s', e', dir')
    ensures s == s' && e == e'
  {
    NameParsesBack(s, e, dir);
    NameParsesBack(s', e', dir');
  }

  /** A name with a number that does not fit 64 bits is no chunk's. */
  lemma TooLargeIsForeign(s: nat, e: nat, dir: string)
    requires s > MAX_INT64 || e > MAX_INT64
    ensures GetRangeStartEnd(GetRangeTempFile(s, e, dir)) == (0, 0)
  {
    RangeNameHasNoSlash(s, e);
    BaseOfJoin(dir, RangeName(s, e));
    RangeNameParts(s, e);
    ParseOfDecimal(s);
    ParseOfDecimal(e);
  }

  /** A slash at the end of a path, but of an empty one, does not count. */
  lemma SlashesDoNotCount(path: string)
    requires path != ""
    ensures GetRangeStartEnd(path + "/") == GetRangeStartEnd(path)
  {
    assert (path + "/")[..|path|] == path;
  }

  /** The round trip for base names, which is how a directory listing shows them. */
  lemma BaseNameParsesBack(s: int, e: int)
    requires 0 <= s <= MAX_INT64 && 0 <= e <= MAX_INT64
    ensures GetRangeStartEnd(RangeName(s, e)) == (s, e)
  {
    NameParsesBack(s, e, "");
  }

  // ---------- the naming scheme as a value ----------

  /** How chunk files are named: the entry of a range in the chunk directory, the range of an
      entry, and the path of an entry. The other components depend on nothing more. */
  datatype Naming = Naming(entry: (int, int) -> string, parse: string -> (int, int), locate: string -> string) {
    function Path(s: int, e: int): string { locate(entry(s, e)) }
  }

  function ChunkNaming(dir: string): Naming {
    Naming((s, e) => RangeName(s, e), name => GetRangeStartEnd(name), name => Join(dir, name))
  }

  ghost predicate RoundTrips(naming: Naming) {
    forall s, e :: 0 <= s <= MAX_INT64 && 0 <= e <= MAX_INT64 ==> naming.parse(naming.entry(s, e)) == (s, e)
  }

  /** The scheme in use recovers every range from its directory entry, and its paths are the
      ones the chunks are written to. */
  lemma ChunkNamingRoundTrips(dir: string)
    ensures RoundTrips(ChunkNaming(dir))
    ensures forall s, e :: ChunkNaming(dir).Path(s, e) == GetRangeTempFile(s, e, dir)
  {
    forall s, e | 0 <= s <= MAX_INT64 && 0 <= e <= MAX_INT64
      ensures ChunkNaming(dir).parse(ChunkNaming(dir).entry(s, e)) == (s, e)
    {
      BaseNameParsesBack(s, e);
    }
  }

  /** The parser never returns a negative bound: '-' is the separator. */
  lemma ParsedBoundsAreNatural(filename: string)
    ensures GetRangeStartEnd(filename).0 >= 0 && GetRangeStartEnd(filename).1 >= 0
  {
    var parts := Split(Base(filename), '-');
    PartsHaveNoSeparator(Base(filename), '-');
    if |parts| == 3 {
      assert parts[1] in parts && parts[2] in parts;
    }
  }

  lemma {:induction false} PartsHaveNoSeparator(s: string, sep: char)
    ensures forall part :: part in Split(s, sep) ==> sep !in part
  {
    if s != "" {
      PartsHaveNoSeparator(s[1..], sep);
      var rest := Split(s[1..], sep);
      assert rest[0] in rest;
      forall part | part in Split(s, sep) ensures sep !in part {
        if s[0] == sep {
          assert part == "" || part in rest;
        } else {
          assert part == [s[0]] + rest[0] || part in rest;
        }
      }
    }
  }

  /** A second name for a range, with an explicit plus sign; the program never prints it. */
  function ForeignName(s: nat, e: nat): string {
    "temp" + "-" + ("+" + Decimal(s) + "-" + Decimal(e))
  }

  lemma ForeignParts(s: nat, e: nat)
    ensures Split(ForeignName(s, e), '-') == ["temp", "+" + Decimal(s), Decimal(e)]
  {
    DecimalHasNo(s, '-');
    DecimalHasNo(e, '-');
    var plus := "+" + Decimal(s);
    SplitWithoutSeparator(Decimal(e), '-');
    SplitAtFirst(plus, Decimal(e), '-');
    assert plus + ['-'] + Decimal(e) == plus + "-" + Decimal(e);
    SplitAtFirst("temp", plus + "-" + Decimal(e), '-');
    assert "-" == ['-'];
  }

  lemma ParseWithPlus(n: nat)
    requires n <= MAX_INT64
    ensures ParseInt64("+" + Decimal(n)) == Some(n)
  {
    DigitsValueOfDecimal(n);
    assert ("+" + Decimal(n))[1..] == Decimal(n);
  }

  /** The parser is not injective: every range has a second, foreign name. */
  lemma ForeignNamesParseToo(s: nat, e: nat)
    requires s <= MAX_INT64 && e <= MAX_INT64
    ensures GetRangeStartEnd(ForeignName(s, e)) == (s, e)
    ensures ForeignName(s, e) != RangeName(s, e)
  {
    var foreign := ForeignName(s, e);
    assert foreign[5] == '+' && IsDigit(RangeName(s, e)[5]);
    DecimalHasNo(s, '/');
    DecimalHasNo(e, '/');
    BaseOfJoin("", foreign);
    ForeignParts(s, e);
    ParseWithPlus(s);
    ParseOfDecimal(e);
  }

  // ---------- which names are printed ones ----------

  /** Undoes Split. */
  function JoinParts(parts: seq<string>, sep: char): string
    requires parts != []
  {
    if |parts| == 1 then parts[0] else parts[0] + [sep] + JoinParts(parts[1..], sep)
  }

  lemma {:induction false} JoinOfSplit(s: string, sep: char)
    ensures JoinParts(Split(s, sep), sep) == s
  {
    if s != "" {
      var rest := Split(s[1..], sep);
      JoinOfSplit(s[1..], sep);
      assert s == [s[0]] + s[1..];
      if s[0] == sep {
        assert ([""] + rest)[1..] == rest;
      } else {
        assert ([[s[0]] + rest[0]] + rest[1..])[1..] == rest[1..];
        assert |rest| > 1 ==> [s[0]] + rest[0] + [sep] + JoinParts(rest[1..], sep)
                              == [s[0]] + (rest[0] + [sep] + JoinParts(rest[1..], sep));
      }
    }
  }

  lemma SplitIsInjective(s: string, t: string, sep: char)
    ensures Split(s, sep) == Split(t, sep) <==> s == t
  {
    JoinOfSplit(s, sep);
    JoinOfSplit(t, sep);
  }

  lemma PrintedParts(s: nat, e: nat)
    ensures Split(RangeName(s, e), '-') == ["temp", Decimal(s), Decimal(e)]
  {
    RangeNameParts(s, e);
  }

  /** A number without a sign and without leading zeros. */
  predicate Plain(digits: string) {
    digits != "" && digits[0] != '+' && digits[0] != '-' && (digits[0] == '0' ==> |digits| == 1)
  }

  lemma {:induction false} DecimalIsPlain(n: nat)
    ensures Plain(Decimal(n)) && (Decimal(n)[0] == '0' ==> n == 0)
  {
    if n >= 10 {
      DecimalIsPlain(n / 10);
      assert Decimal(n)[0] == Decimal(n / 10)[0];
    }
  }

  /** Digits without leading zeros are the printed form of their value. */
  lemma {:induction false} PlainDigitsArePrinted(digits: string)
    requires Plain(digits) && DigitsValue(digits).Some?
    ensures digits == Decimal(DigitsValue(digits).value)
    decreases |digits|
  {
    var n := |digits| - 1;
    var front := digits[..n];
    assert digits == front + [digits[n]];
    if n == 0 {
      assert DigitsValue(front) == Some(0);
    } else {
      assert front[0] == digits[0];
      if |front| > 1 || front[0] != '0' { PlainDigitsArePrinted(front); }
      DecimalIsPlain(DigitsValue(front).value);
      assert DigitsValue(front).value > 0;
    }
  }

  lemma PrintedIffPlain(number: string)
    requires ParseInt64(number).Some? && '-' !in number
    ensures ParseInt64(number).value >= 0
    ensures number == Decimal(ParseInt64(number).value) <==> Plain(number)
  {
    if Plain(number) {
      PlainDigitsArePrinted(number);
    } else {
      DecimalIsPlain(ParseInt64(number).value);
    }
  }

  /** A directory entry that parses to a range. */
  predicate NamesARange(entry: string) {
    var parts := Split(entry, '-');
    |parts| == 3 && parts[0] == "temp" && ParseInt64(parts[1]).Some? && ParseInt64(parts[2]).Some?
  }

  /** An entry that parses to a range is the name the program prints for it exactly when neither number
      has a sign or a leading zero. */
  lemma PrintedNameIff(entry: string)
    requires '/' !in entry && NamesARange(entry)
    ensures var (s, e) := GetRangeStartEnd(entry);
            var parts := Split(entry, '-');
            entry == RangeName(s, e) <==> Plain(parts[1]) && Plain(parts[2])
  {
    var (s, e) := GetRangeStartEnd(entry);
    var parts := Split(entry, '-');
    BaseOfJoin("", entry);
    PartsHaveNoSeparator(entry, '-');
    assert parts[1] in parts && parts[2] in parts;
    PrintedIffPlain(parts[1]);
    PrintedIffPlain(parts[2]);
    PrintedParts(s, e);
    SplitIsInjective(entry, RangeName(s, e), '-');
    assert parts == ["temp", parts[1], parts[2]];
  }

  /** Nothing else than two numbers behind "temp" is taken for a chunk file. */
  lemma OnlyTempNames(entry: string) returns (a: string, b: string)
    requires '/' !in entry && entry != "" && GetRangeStartEnd(entry) != (0, 0)
    ensures entry == "temp" + "-" + a + "-" + b && '-' !in a && '-' !in b
    ensures ParseInt64(a) == Some(GetRangeStartEnd(entry).0) && ParseInt64(b) == Some(GetRangeStartEnd(entry).1)
  {
    var parts := Split(entry, '-');
    BaseOfJoin("", entry);
    PartsHaveNoSeparator(entry, '-');
    a, b := parts[1], parts[2];
    assert a in parts && b in parts;
    ThreeParts(entry, a, b);
  }

  lemma ThreeParts(entry: string, a: string, b: string)
    requires Split(entry, '-') == ["temp", a, b]
    ensures entry == "temp" + "-" + a + "-" + b
  {
    JoinOfSplit(entry, '-');
    ThreeJoined("temp", a, b, '-');
    assert "-" == ['-'];
  }

  lemma ThreeJoined(a: string, b: string, c: string, sep: char)
    ensures JoinParts([a, b, c], sep) == a + [sep] + b + [sep] + c
  {
    assert [a, b, c][1..] == [b, c] && [b, c][1..] == [c];
    assert JoinParts([b, c], sep) == b + [sep] + c;
  }
}
