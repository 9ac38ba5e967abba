/**
 * The passports of Day4/main.go: eight string fields filled from `key:value`
 * items, records separated by blank lines, a presence check and a check of
 * each field's format.
 */
module Passports {
  import opened Optional
  import Strconv

  datatype Passport = Passport(byr: string, iyr: string, eyr: string, hgt: string,
                               hcl: string, ecl: string, pid: string, cid: string)

  const EmptyPassport := Passport("", "", "", "", "", "", "", "")

  /** `isDocumentValid`: the seven fields other than Cid are present. */
  predicate IsDocumentValid(p: Passport) {
    p.byr != "" && p.iyr != "" && p.eyr != "" && p.hgt != "" && p.hcl != "" && p.ecl != "" && p.pid != ""
  }

  /** `validateAsNumberInRange`: an integer as `strconv.Atoi` reads it, within min..max. */
  function ValidateAsNumberInRange(number: string, min: int, max: int): (b: bool)
    ensures b <==> Strconv.Atoi(number).Some? && min <= Strconv.Atoi(number).value <= max
    ensures b ==> number != ""
  {
    match Strconv.Atoi(number)
    case Some(n) => min <= n <= max
    case None => false
  }

  predicate HasSuffix(s: string, suffix: string) {
    |suffix| <= |s| && s[|s| - |suffix|..] == suffix
  }

  /** `validateAsNumberWithUnitInRange`: the unit suffix with an in-range integer before it. */
  function ValidateAsNumberWithUnitInRange(length: string, unit: string, min: int, max: int): (b: bool)
    ensures b <==> HasSuffix(length, unit) && ValidateAsNumberInRange(length[..|length| - |unit|], min, max)
    ensures b ==> |length| > |unit|
  {
    HasSuffix(length, unit) && ValidateAsNumberInRange(length[..|length| - |unit|], min, max)
  }

  lemma UnitExamples()
    ensures ValidateAsNumberWithUnitInRange("180cm", "cm", 150, 193)
    ensures !ValidateAsNumberWithUnitInRange("10m", "cm", 150, 193)
    ensures !ValidateAsNumberWithUnitInRange("10m", "in", 59, 76)
  {
    assert "180cm"[..3] == "180";
    Strconv.AtoiOfItoa(180);
    assert Strconv.Itoa(180) == "180" by {
      assert Strconv.NatDigits(180) == Strconv.NatDigits(18) + [Strconv.DigitChar(0)];
      assert Strconv.NatDigits(18) == Strconv.NatDigits(1) + [Strconv.DigitChar(8)];
    }
    assert "10m"[1..] == "0m";
  }

  predicate IsHexDigit(c: char) {
    '0' <= c <= '9' || 'a' <= c <= 'f'
  }

  /** `validateAsHexColor`, the expression `^#[0-9a-f]{6}$`. */
  predicate ValidateAsHexColor(color: string) {
    |color| == 7 && color[0] == '#' && forall k :: 1 <= k < 7 ==> IsHexDigit(color[k])
  }

  /** `validateAsNumberOfDigits`, the expression `^[0-9]{n}$`. */
  predicate ValidateAsNumberOfDigits(digits: string, numberOfDigits: nat) {
    |digits| == numberOfDigits && Strconv.AllDigits(digits)
  }

  /**
   * The hair colour cases of the puzzle: '#' and six lower-case hex digits pass;
   * a non-hex letter, a missing '#' or upper-case digits do not.
   */
  lemma HexColorExamples()
    ensures ValidateAsHexColor("#123abc")
    ensures !ValidateAsHexColor("#123abz")
    ensures !ValidateAsHexColor("123abc")
    ensures !ValidateAsHexColor("#123ABC")
  {
    assert !IsHexDigit("#123abz"[6]);
    assert !IsHexDigit("#123ABC"[4]);
  }

  /**
   * The passport id cases: exactly nine digits pass, leading zeros included; ten
   * digits do not. Nine digits always read as a number.
   */
  lemma PassportIdExamples(digits: string)
    ensures ValidateAsNumberOfDigits("000000001", 9)
    ensures !ValidateAsNumberOfDigits("0123456789", 9)
    ensures ValidateAsNumberOfDigits(digits, 9) ==> Strconv.Atoi(digits) == Some(Strconv.DigitsValue(digits))
  {
  }

  const ValidCodes: seq<string> := ["amb", "blu", "brn", "gry", "grn", "hzl", "oth"]

  /** `validateAsColorCode`: a scan of the seven eye colour codes. */
  method ValidateAsColorCode(color: string) returns (b: bool)
    ensures b <==> color in ValidCodes
    ensures b ==> |color| == 3
  {
    for k := 0 to |ValidCodes|
      invariant forall j :: 0 <= j < k ==> color != ValidCodes[j]
    {
      if color == ValidCodes[k] {
        return true;
      }
    }
    return false;
  }

  /** The field checks of `areDocumentRecordsValid`; Cid is not checked. */
  predicate RecordsValid(p: Passport) {
    ValidateAsNumberInRange(p.byr, 1920, 2002) &&
    ValidateAsNumberInRange(p.iyr, 2010, 2020) &&
    ValidateAsNumberInRange(p.eyr, 2020, 2030) &&
    (ValidateAsNumberWithUnitInRange(p.hgt, "cm", 150, 193) || ValidateAsNumberWithUnitInRange(p.hgt, "in", 59, 76)) &&
    ValidateAsHexColor(p.hcl) &&
    p.ecl in ValidCodes &&
    ValidateAsNumberOfDigits(p.pid, 9)
  }

  /** `areDocumentRecordsValid`. */
  method AreDocumentRecordsValid(p: Passport) returns (b: bool)
    ensures b <==> RecordsValid(p)
    ensures b ==> IsDocumentValid(p)
  {
    var colorOk := ValidateAsColorCode(p.ecl);
    b := ValidateAsNumberInRange(p.byr, 1920, 2002) &&
      ValidateAsNumberInRange(p.iyr, 2010, 2020) &&
      ValidateAsNumberInRange(p.eyr, 2020, 2030) &&
      (ValidateAsNumberWithUnitInRange(p.hgt, "cm", 150, 193) || ValidateAsNumberWithUnitInRange(p.hgt, "in", 59, 76)) &&
      ValidateAsHexColor(p.hcl) &&
      colorOk &&
      ValidateAsNumberOfDigits(p.pid, 9);
    if b {
      RecordsValidImpliesPresent(p);
    }
  }

  /** Every field check rejects the empty string, so valid records are present records. */
  lemma RecordsValidImpliesPresent(p: Passport)
    requires RecordsValid(p)
    ensures IsDocumentValid(p)
  {
    assert p.ecl in ValidCodes;
  }

  /** The Cid field plays no part in either check. */
  lemma CidIgnored(p: Passport, cid: string)
    ensures RecordsValid(p.(cid := cid)) == RecordsValid(p)
    ensures IsDocumentValid(p.(cid := cid)) == IsDocumentValid(p)
  {
  }

  /** `strings.Title` on a key: an ASCII lower-case first letter is upper-cased. */
  function Capitalize(key: string): (t: string)
    ensures |t| == |key| && (|key| > 0 ==> t[1..] == key[1..])
  {
    if |key| > 0 && 'a' <= key[0] <= 'z' then [(key[0] as int - 32) as char] + key[1..] else key
  }

  /** The eight fields of the Go struct. */
  datatype Field = Byr | Iyr | Eyr | Hgt | Hcl | Ecl | Pid | Cid

  const Fields: seq<Field> := [Byr, Iyr, Eyr, Hgt, Hcl, Ecl, Pid, Cid]

  function Get(p: Passport, f: Field): string {
    match f
    case Byr => p.byr
    case Iyr => p.iyr
    case Eyr => p.eyr
    case Hgt => p.hgt
    case Hcl => p.hcl
    case Ecl => p.ecl
    case Pid => p.pid
    case Cid => p.cid
  }

  /** A document is valid exactly when every field other than Cid is non-empty. */
  lemma DocumentValidIffPresent(p: Passport)
    ensures IsDocumentValid(p) <==> forall f :: f != Cid ==> Get(p, f) != ""
  {
    if forall f :: f != Cid ==> Get(p, f) != "" {
      assert Get(p, Byr) != "" && Get(p, Iyr) != "" && Get(p, Eyr) != "" && Get(p, Hgt) != "";
      assert Get(p, Hcl) != "" && Get(p, Ecl) != "" && Get(p, Pid) != "";
    }
  }

  /** What `reflect.Value.SetString` does to one field. */
  function Set(p: Passport, f: Field, value: string): (q: Passport)
    ensures Get(q, f) == value
    ensures forall g :: g != f ==> Get(q, g) == Get(p, g)
  {
    match f
    case Byr => p.(byr := value)
    case Iyr => p.(iyr := value)
    case Eyr => p.(eyr := value)
    case Hgt => p.(hgt := value)
    case Hcl => p.(hcl := value)
    case Ecl => p.(ecl := value)
    case Pid => p.(pid := value)
    case Cid => p.(cid := value)
  }

  lemma PassportsEqual(p: Passport, q: Passport)
    requires forall f :: Get(p, f) == Get(q, f)
    ensures p == q
  {
    assert Get(p, Byr) == Get(q, Byr) && Get(p, Iyr) == Get(q, Iyr) && Get(p, Eyr) == Get(q, Eyr) && Get(p, Hgt) == Get(q, Hgt);
    assert Get(p, Hcl) == Get(q, Hcl) && Get(p, Ecl) == Get(q, Ecl) && Get(p, Pid) == Get(q, Pid) && Get(p, Cid) == Get(q, Cid);
  }

  /** `reflect.Value.FieldByName` on the struct: the field whose Go name is exactly `name`. */
  function FieldNamed(name: string): Option<Field> {
    match name
    case "Byr" => Some(Byr)
    case "Iyr" => Some(Iyr)
    case "Eyr" => Some(Eyr)
    case "Hgt" => Some(Hgt)
    case "Hcl" => Some(Hcl)
    case "Ecl" => Some(Ecl)
    case "Pid" => Some(Pid)
    case "Cid" => Some(Cid)
    case _ => None
  }

  /** The key each field has in the input. */
  function Key(f: Field): (key: string)
    ensures |key| == 3 && ' ' !in key && ':' !in key
  {
    match f
    case Byr => "byr"
    case Iyr => "iyr"
    case Eyr => "eyr"
    case Hgt => "hgt"
    case Hcl => "hcl"
    case Ecl => "ecl"
    case Pid => "pid"
    case Cid => "cid"
  }

  /** Each input key, capitalised, names its field. */
  lemma KeyNamesField(f: Field)
    ensures FieldNamed(Capitalize(Key(f))) == Some(f)
  {
    match f
    case Byr => assert Capitalize("byr") == "Byr";
    case Iyr => assert Capitalize("iyr") == "Iyr";
    case Eyr => assert Capitalize("eyr") == "Eyr";
    case Hgt => assert Capitalize("hgt") == "Hgt";
    case Hcl => assert Capitalize("hcl") == "Hcl";
    case Ecl => assert Capitalize("ecl") == "Ecl";
    case Pid => assert Capitalize("pid") == "Pid";
    case Cid => assert Capitalize("cid") == "Cid";
  }

  /** The reflection lookup of `parsePassportData`: the field named by the capitalised key is set; any other key is ignored. */
  function SetField(p: Passport, key: string, value: string): (q: Passport)
    ensures FieldNamed(Capitalize(key)).None? ==> q == p
  {
    match FieldNamed(Capitalize(key))
    case Some(f) => Set(p, f, value)
    case None => p
  }

  /** A later value for a key overwrites an earlier one. */
  lemma SetFieldOverwrites(p: Passport, key: string, v1: string, v2: string)
    ensures SetField(SetField(p, key, v1), key, v2) == SetField(p, key, v2)
  {
    if FieldNamed(Capitalize(key)).Some? {
      var f := FieldNamed(Capitalize(key)).value;
      PassportsEqual(Set(Set(p, f, v1), f, v2), Set(p, f, v2));
    }
  }

  /** One item: it is used only when it splits into exactly two parts on ':'. */
  function ParsedItem(p: Passport, datum: string): Passport {
    var tuple := Strconv.Split(datum, ':');
    if |tuple| == 2 then SetField(p, tuple[0], tuple[1]) else p
  }

  function ParsedItems(p: Passport, items: seq<string>): Passport {
    if items == [] then p else ParsedItem(ParsedItems(p, items[..|items| - 1]), items[|items| - 1])
  }

  /** What `parsePassportData` makes of one line: the items between single spaces, in order. */
  function ParsedData(p: Passport, data: string): Passport {
    ParsedItems(p, Strconv.Split(data, ' '))
  }

  /** `parsePassportData`: the passport Go updates in place is the in/out value `p`. */
  method ParsePassportData(data: string, p: Passport) returns (q: Passport)
    ensures q == ParsedData(p, data)
  {
    var items := Strconv.Split(data, ' ');
    q := p;
    for k := 0 to |items|
      invariant q == ParsedItems(p, items[..k])
    {
      assert items[..k + 1][..k] == items[..k];
      var tuple := Strconv.Split(items[k], ':');
      if |tuple| == 2 {
        q := SetField(q, tuple[0], tuple[1]);
      }
    }
    assert items[..|items|] == items;
  }

  /** A value that can be written after its key and read back. */
  predicate Plain(value: string) {
    ' ' !in value && ':' !in value
  }

  function Item(key: string, value: string): string {
    key + ":" + value
  }

  /** The items `byr:… iyr:… eyr:… hgt:… hcl:… ecl:… pid:… cid:…`. */
  function Items(p: Passport): seq<string> {
    seq(8, i requires 0 <= i < 8 => Item(Key(Fields[i]), Get(p, Fields[i])))
  }

  /** A passport written on one line. */
  function Format(p: Passport): string {
    Strconv.Join(Items(p), ' ')
  }

  lemma ItemSplits(key: string, value: string)
    requires ':' !in key && ':' !in value
    ensures Strconv.Split(Item(key, value), ':') == [key, value]
  {
    Strconv.SplitAfterSep(key, ':', value);
    Strconv.SplitNoSep(key, ':');
    assert key + ":" + value == key + [':'] + value;
  }

  lemma ItemsHaveNoSpace(p: Passport)
    requires forall f :: Plain(Get(p, f))
    ensures forall i :: 0 <= i < |Items(p)| ==> ' ' !in Items(p)[i]
  {
    forall i | 0 <= i < 8
      ensures ' ' !in Items(p)[i]
    {
      var f := Fields[i];
      assert Items(p)[i] == Key(f) + ":" + Get(p, f);
      assert Plain(Get(p, f));
    }
  }

  /** The first k fields of p, the others empty. */
  function Filled(p: Passport, k: nat): Passport
    requires k <= 8
  {
    if k == 0 then EmptyPassport else Set(Filled(p, k - 1), Fields[k - 1], Get(p, Fields[k - 1]))
  }

  /** The position of a field in the struct. */
  function Index(f: Field): (i: nat)
    ensures i < 8 && Fields[i] == f
  {
    match f
    case Byr => 0
    case Iyr => 1
    case Eyr => 2
    case Hgt => 3
    case Hcl => 4
    case Ecl => 5
    case Pid => 6
    case Cid => 7
  }

  lemma IndexOfField(j: nat)
    requires j < 8
    ensures Index(Fields[j]) == j
  {
  }

  lemma {:induction false} FilledGet(p: Passport, k: nat, f: Field)
    requires k <= 8
    ensures Get(Filled(p, k), f) == if Index(f) < k then Get(p, f) else ""
  {
    if k > 0 {
      FilledGet(p, k - 1, f);
      IndexOfField(k - 1);
    }
  }

  /** The formatted items, parsed in order from an empty passport, fill the fields one by one. */
  lemma {:induction false} ParsedPrefix(p: Passport, k: nat)
    requires k <= 8 && forall f :: Plain(Get(p, f))
    ensures ParsedItems(EmptyPassport, Items(p)[..k]) == Filled(p, k)
  {
    if k > 0 {
      ParsedPrefix(p, k - 1);
      var f := Fields[k - 1];
      assert Items(p)[..k][..k - 1] == Items(p)[..k - 1];
      assert Plain(Get(p, f));
      ItemSplits(Key(f), Get(p, f));
      KeyNamesField(f);
    }
  }

  /** Parsing the formatted line into an empty passport gives back every field. */
  lemma ParseFormat(p: Passport)
    requires forall f :: Plain(Get(p, f))
    ensures ParsedData(EmptyPassport, Format(p)) == p
  {
    ItemsHaveNoSpace(p);
    Strconv.SplitJoin(Items(p), ' ');
    ParsedPrefix(p, 8);
    forall f
      ensures Get(Filled(p, 8), f) == Get(p, f)
    {
      FilledGet(p, 8, f);
    }
    PassportsEqual(Filled(p, 8), p);
    assert Items(p)[..8] == Items(p);
  }

  /** The lines of one record, each parsed in turn into the same passport. */
  function ParsedLines(p: Passport, lines: seq<string>): Passport {
    if lines == [] then p else ParsedData(ParsedLines(p, lines[..|lines| - 1]), lines[|lines| - 1])
  }

  /** What the loop of `loadPassports` has built after k lines: the closed records and the open one. */
  ghost predicate LoadedUpTo(lines: seq<string>, k: nat, passports: seq<Passport>, current: Passport)
    requires k <= |lines|
  {
    var groups := Strconv.Split(lines[..k], "");
    && |passports| + 1 == |groups|
    && (forall i :: 0 <= i < |passports| ==> passports[i] == ParsedLines(EmptyPassport, groups[i]))
    && current == ParsedLines(EmptyPassport, groups[|passports|])
  }

  /** One line of `loadPassports`: a blank line closes the open record, any other line is parsed into it. */
  lemma LoadStep(lines: seq<string>, k: nat, passports: seq<Passport>, current: Passport)
    requires k < |lines| && LoadedUpTo(lines, k, passports, current)
    ensures lines[k] == "" ==> LoadedUpTo(lines, k + 1, passports + [current], EmptyPassport)
    ensures lines[k] != "" ==> LoadedUpTo(lines, k + 1, passports, ParsedData(current, lines[k]))
  {
    Strconv.SplitPrefixStep(lines, "", k);
    var groups := Strconv.Split(lines[..k], "");
    if lines[k] != "" {
      var g := groups[|groups| - 1];
      assert (g + [lines[k]])[..|g|] == g;
    }
  }

  /**
   * `loadPassports` over the lines of the input file: a blank line closes the
   * current record and the last record is closed after the last line, so the
   * records are the groups between blank lines, k blank lines giving k + 1.
   */
  method LoadPassports(lines: seq<string>) returns (passports: seq<Passport>)
    ensures |passports| == Strconv.Count(lines, "") + 1
    ensures forall i :: 0 <= i < |passports| ==> passports[i] == ParsedLines(EmptyPassport, Strconv.Split(lines, "")[i])
  {
    passports := [];
    var currentPassport := EmptyPassport;
    for k := 0 to |lines|
      invariant LoadedUpTo(lines, k, passports, currentPassport)
    {
      LoadStep(lines, k, passports, currentPassport);
      if lines[k] == "" {
        passports := passports + [currentPassport];
        currentPassport := EmptyPassport;
      } else {
        currentPassport := ParsePassportData(lines[k], currentPassport);
      }
    }
    assert lines[..|lines|] == lines;
    passports := passports + [currentPassport];
  }
}
