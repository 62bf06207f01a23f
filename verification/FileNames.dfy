/** How the files of a database are named (src/flush.cpp:98-106, src/database.cpp:35-79). */
module FileNames {
  import opened Coding
  import opened Keys
  import opened FileSystem

  const NUMBER_WIDTH: nat := 20

  predicate IsDigit(c: char) {
    '0' <= c <= '9'
  }

  function DigitValue(c: char): nat
    requires IsDigit(c)
  {
    c as int - '0' as int
  }

  function DigitChar(d: nat): (c: char)
    requires d < 10
    ensures IsDigit(c) && DigitValue(c) == d
  {
    ('0' as int + d) as char
  }

  predicate AllDigits(s: string) {
    forall i :: 0 <= i < |s| ==> IsDigit(s[i])
  }

  /** The number that a string of digits denotes. */
  function Number(s: string): nat
    requires AllDigits(s)
  {
    if s == [] then 0 else Number(s[..|s| - 1]) * 10 + DigitValue(s[|s| - 1])
  }

  function PowerOfTen(n: nat): nat {
    if n == 0 then 1 else 10 * PowerOfTen(n - 1)
  }

  /** The last digits of a number, padded with zeros. */
  function Digits(n: nat, width: nat): (s: string)
    ensures |s| == width && AllDigits(s)
  {
    if width == 0 then [] else Digits(n / 10, width - 1) + [DigitChar(n % 10)]
  }

  lemma {:induction false} NumberOfDigits(n: nat, width: nat)
    requires n < PowerOfTen(width)
    ensures Number(Digits(n, width)) == n
  {
    if width > 0 {
      NumberOfDigits(n / 10, width - 1);
      assert Digits(n, width)[..width - 1] == Digits(n / 10, width - 1);
    }
  }

  lemma {:induction false} DigitsOfNumber(s: string)
    requires AllDigits(s)
    ensures Digits(Number(s), |s|) == s
  {
    if s != [] {
      var rest, last := s[..|s| - 1], s[|s| - 1];
      DigitsOfNumber(rest);
      assert Number(s) / 10 == Number(rest) && Number(s) % 10 == DigitValue(last);
      assert s == rest + [last];
      assert DigitChar(DigitValue(last)) == last;
    }
  }

  /** Twenty digits are enough for any 64-bit number. */
  lemma WideEnough()
    ensures MAX64 < PowerOfTen(NUMBER_WIDTH)
  {
    assert PowerOfTen(5) == 100_000;
    assert PowerOfTen(10) == 100_000 * PowerOfTen(5) by { assert PowerOfTen(8) == 1000 * PowerOfTen(5); }
    assert PowerOfTen(15) == 100_000 * PowerOfTen(10) by { assert PowerOfTen(13) == 1000 * PowerOfTen(10); }
    assert PowerOfTen(20) == 100_000 * PowerOfTen(15) by { assert PowerOfTen(18) == 1000 * PowerOfTen(15); }
  }

  function GenerationFileName(generation: nat, extension: string): string {
    Digits(generation, NUMBER_WIDTH) + "." + extension
  }

  /** The shape of a numbered name. */
  predicate Shaped(name: string, extension: string) {
    |name| == 24 && name[20] == '.' && name[21..] == extension && AllDigits(name[..20])
  }

  /** The test before each step of the 64-bit accumulation is exact: it fires if and only if the step would overflow. */
  lemma OverflowGuard(value: nat, digit: nat)
    requires digit < 10
    ensures value > (MAX64 - digit) / 10 <==> value * 10 + digit > MAX64
  {
  }

  lemma {:induction false} PrefixNumberSmaller(s: string, n: nat)
    requires AllDigits(s) && n <= |s|
    ensures Number(s[..n]) <= Number(s)
    decreases |s|
  {
    if n < |s| {
      assert s[..|s| - 1][..n] == s[..n];
      PrefixNumberSmaller(s[..|s| - 1], n);
    } else {
      assert s[..n] == s;
    }
  }

  method ParseGenerationFile(name: string, extension: string) returns (generation: Option<nat>)
    ensures generation == if Shaped(name, extension) && 0 < Number(name[..20]) <= MAX64 then Some(Number(name[..20])) else None
  {
    if |name| != 24 || name[20] != '.' || name[21..] != extension {
      return None;
    }
    var value := 0;
    for index := 0 to 20
      invariant AllDigits(name[..index]) && value == Number(name[..index]) <= MAX64
    {
      if !IsDigit(name[index]) {
        assert !AllDigits(name[..20]) by { assert name[..20][index] == name[index]; }
        return None;
      }
      var digit := DigitValue(name[index]);
      assert name[..index + 1][..index] == name[..index];
      OverflowGuard(value, digit);
      if value > (MAX64 - digit) / 10 {
        TooLarge(name, index);
        return None;
      }
      value := value * 10 + digit;
    }
    if value == 0 {
      return None;
    }
    generation := Some(value);
  }

  lemma TooLarge(name: string, index: nat)
    requires |name| == 24 && index < 20 && AllDigits(name[..index + 1]) && Number(name[..index + 1]) > MAX64
    ensures AllDigits(name[..20]) ==> Number(name[..20]) > MAX64
  {
    if AllDigits(name[..20]) {
      assert name[..20][..index + 1] == name[..index + 1];
      PrefixNumberSmaller(name[..20], index + 1);
    }
  }

  /** Naming and parsing are inverse: a name parses to a generation if and only if it is that generation's name. */
  lemma ParsesExactly(name: string, extension: string, generation: nat)
    requires |extension| == 3
    ensures Shaped(name, extension) && 0 < Number(name[..20]) <= MAX64 && Number(name[..20]) == generation
            <==> 0 < generation <= MAX64 && name == GenerationFileName(generation, extension)
  {
    WideEnough();
    if 0 < generation <= MAX64 && name == GenerationFileName(generation, extension) {
      assert name[..20] == Digits(generation, 20) && name[21..] == extension;
      NumberOfDigits(generation, 20);
    } else if Shaped(name, extension) && Number(name[..20]) == generation {
      DigitsOfNumber(name[..20]);
      assert name == name[..20] + ['.'] + name[21..];
    }
  }

  // ----- All names of a database ------------------------------------------------------------------------

  /** The name of a file on disk. */
  function TextOf(name: FileName): string {
    match name
    case Manifest => "MANIFEST"
    case ManifestTemporary => "MANIFEST" + ".tmp"
    case Table(n) => GenerationFileName(n, "sst")
    case TableTemporary(n) => GenerationFileName(n, "sst") + ".tmp"
    case WalName(n) => GenerationFileName(n, "wal")
  }

  predicate IsStorageTemporaryFile(name: string) {
    name == "MANIFEST.tmp" || (|name| > 8 && name[|name| - 8..] == ".sst.tmp")
  }

  predicate Numbered(name: FileName) {
    !(name.Manifest? || name.ManifestTemporary?) ==> 0 < name.number <= MAX64
  }

  /** Exactly the temporary files of the model have names that Open removes as temporary. */
  lemma TemporaryNames(name: FileName)
    ensures IsStorageTemporaryFile(TextOf(name)) <==> name.ManifestTemporary? || name.TableTemporary?
  {
    hide Digits;
    match name
    case Manifest =>
    case ManifestTemporary =>
      assert "MANIFEST" + ".tmp" == "MANIFEST.tmp";
    case Table(n) =>
      var text := GenerationFileName(n, "sst");
      assert text[|text| - 1] == 't' && |text| == 24;
      assert text[|text| - 8..][7] == 't';
      assert text[|text| - 8..][6] == 's';
    case TableTemporary(n) =>
      var text := GenerationFileName(n, "sst") + ".tmp";
      assert text[|text| - 8..] == ".sst.tmp";
    case WalName(n) =>
      var text := GenerationFileName(n, "wal");
      assert |text| == 24 && text[|text| - 8..][7] == 'l';
  }

  /** Different files have different names. */
  lemma TextIsUnique(a: FileName, b: FileName)
    requires Numbered(a) && Numbered(b) && TextOf(a) == TextOf(b)
    ensures a == b
  {
    TemporaryNames(a);
    TemporaryNames(b);
    NamesHaveLengths(a);
    NamesHaveLengths(b);
    hide TextOf, IsStorageTemporaryFile;
    if !a.Manifest? && !a.ManifestTemporary? {
      NumberInName(a);
      NumberInName(b);
    }
  }

  lemma NamesHaveLengths(name: FileName)
    ensures |TextOf(name)| == match name case Manifest => 8 case ManifestTemporary => 12 case TableTemporary(_) => 28 case _ => 24
  {
  }

  /** The generation and the kind can be read off a name. */
  lemma NumberInName(name: FileName)
    requires Numbered(name) && !name.Manifest? && !name.ManifestTemporary?
    ensures |TextOf(name)| >= 24 && AllDigits(TextOf(name)[..20]) && Number(TextOf(name)[..20]) == name.number
    ensures TextOf(name)[21] == 'w' <==> name.WalName?
  {
    hide Digits;
    WideEnough();
    assert TextOf(name)[..20] == Digits(name.number, 20);
    NumberOfDigits(name.number, 20);
  }

  /** What Open takes a directory entry for. */
  datatype Found = Known(name: FileName) | Leftover | Unknown

  /** The text is the name of a file that stays. */
  predicate Names(text: string, name: FileName) {
    Numbered(name) && !name.ManifestTemporary? && !name.TableTemporary? && text == TextOf(name)
  }

  /** The classification of one directory entry: exactly the names that the engine gives are taken for its files. */
  method Recognize(text: string) returns (found: Found)
    ensures forall name :: found == Known(name) <==> Names(text, name)
    ensures found == Leftover <==> IsStorageTemporaryFile(text)
  {
    hide *;
    if text == "MANIFEST" {
      OnlyName(text, FileName.Manifest);
      return Known(FileName.Manifest);
    }
    var table := ParseGenerationFile(text, "sst");
    if table.Some? {
      ParsedName(text, "sst", table);
      OnlyName(text, Table(table.value));
      return Known(Table(table.value));
    }
    var wal := ParseGenerationFile(text, "wal");
    if wal.Some? {
      ParsedName(text, "wal", wal);
      OnlyName(text, WalName(wal.value));
      return Known(WalName(wal.value));
    }
    NoName(text);
    found := if IsStorageTemporaryFile(text) then Leftover else Unknown;
  }

  lemma ParsedName(text: string, extension: string, generation: Option<nat>)
    requires |extension| == 3 && generation.Some?
    requires generation == if Shaped(text, extension) && 0 < Number(text[..20]) <= MAX64 then Some(Number(text[..20])) else None
    ensures 0 < generation.value <= MAX64 && text == GenerationFileName(generation.value, extension)
  {
    hide GenerationFileName, Number;
    ParsesExactly(text, extension, generation.value);
  }

  lemma OnlyName(text: string, known: FileName)
    requires match known
             case Manifest => text == "MANIFEST"
             case Table(n) => 0 < n <= MAX64 && text == GenerationFileName(n, "sst")
             case WalName(n) => 0 < n <= MAX64 && text == GenerationFileName(n, "wal")
             case _ => false
    ensures forall name :: Names(text, name) <==> name == known
    ensures !IsStorageTemporaryFile(text)
  {
    hide GenerationFileName, IsStorageTemporaryFile;
    TemporaryNames(known);
    forall name | Names(text, name) ensures name == known { TextIsUnique(name, known); }
  }

  lemma NoName(text: string)
    requires text != "MANIFEST"
    requires !(Shaped(text, "sst") && 0 < Number(text[..20]) <= MAX64)
    requires !(Shaped(text, "wal") && 0 < Number(text[..20]) <= MAX64)
    ensures forall name :: !Names(text, name)
  {
    hide GenerationFileName, Number, Shaped;
    forall name ensures !Names(text, name) {
      match name
      case Table(n) => ParsesExactly(text, "sst", n);
      case WalName(n) => ParsesExactly(text, "wal", n);
      case _ =>
    }
  }
}
