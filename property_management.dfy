/** The analytics property bag (PropertyManagement): a string-keyed table of
    values whose keys are derived from parameter enums, with typed getters,
    bulk stores, argument lists and command-line import. */
module Tools {
  import opened Items

  /** A parameter enum constant: the simple name of its enum class and the
      constant's name. */
  datatype ParameterEnum = ParameterEnum(className: string, constName: string)

  /** A stored value. Only `Str` values are Strings to
      `Properties.getProperty`; `Bool` and `Int` are boxed Booleans and
      Integers; `Other` is any other object, known by its `toString()`. */
  datatype Val = Str(s: string) | Bool(b: bool) | Int(i: int) | Other(text: string)

  /** A command-line option: short name, long name (none when the option
      was declared without one), whether it takes an argument, description,
      and the argument value parsed for it. */
  datatype CliOption = CliOption(opt: string, longOpt: Option<string>, hasArg: bool, description: string, value: Option<string>)

  /** What the property bag's operations throw. */
  datatype PropertyError = IllegalArgument | NullPointer | NumberFormat(text: string)

  const MinInt: int := -0x8000_0000
  const MaxInt: int := 0x7FFF_FFFF

  // ---------------------------------------------------------------------
  // Key derivation

  function LowerChar(c: char): char {
    if 'A' <= c <= 'Z' then (c as int - 'A' as int + 'a' as int) as char else c
  }

  function ToLower(s: string): (r: string)
    ensures |r| == |s| && forall i :: 0 <= i < |s| ==> r[i] == LowerChar(s[i])
  {
    seq(|s|, i requires 0 <= i < |s| => LowerChar(s[i]))
  }

  /** `s.replace('_', '-')`. */
  function Dashed(s: string): (r: string)
    ensures |r| == |s| && forall i :: 0 <= i < |s| ==> r[i] == if s[i] == '_' then '-' else s[i]
  {
    seq(|s|, i requires 0 <= i < |s| => if s[i] == '_' then '-' else s[i])
  }

  /** The key character a constant-name character becomes. */
  function KeyChar(c: char): char {
    if c == '_' then '-' else LowerChar(c)
  }

  /** toPropertyName: the lower-cased class name, a dash, and the lower-cased
      constant name with each underscore turned into a dash; underscores in
      the class name are kept. */
  function ToPropertyName(e: ParameterEnum): (key: string)
    ensures |key| == |e.className| + 1 + |e.constName|
    ensures key[|e.className|] == '-'
    ensures forall i :: 0 <= i < |e.className| ==> key[i] == LowerChar(e.className[i])
    ensures forall i :: 0 <= i < |e.constName| ==>
      key[|e.className| + 1 + i] == KeyChar(e.constName[i])
  {
    ToLower(e.className) + "-" + ToLower(Dashed(e.constName))
  }

  /** A Java constant name in the usual style: no dashes (no Java identifier
      has one) and no lower-case letters. */
  predicate ConstantStyle(s: string) {
    forall i :: 0 <= i < |s| ==> s[i] != '-' && !('a' <= s[i] <= 'z')
  }

  /** Keys tell parameters apart: two constants in the usual style whose
      keys agree have the same name and class names equal up to case. */
  lemma ToPropertyNameDistinguishes(a: ParameterEnum, b: ParameterEnum)
    requires '-' !in a.className && '-' !in b.className
    requires ConstantStyle(a.constName) && ConstantStyle(b.constName)
    requires ToPropertyName(a) == ToPropertyName(b)
    ensures ToLower(a.className) == ToLower(b.className)
    ensures a.constName == b.constName
  {
    var key := ToPropertyName(a);
    var n := |a.className|;
    DashPosition(a, key);
    DashPosition(b, key);
    assert n == |b.className|;
    assert ToLower(a.className) == key[..n] == ToLower(b.className);
    forall i | 0 <= i < |a.constName|
      ensures a.constName[i] == b.constName[i]
    {
      assert KeyChar(a.constName[i]) == key[n + 1 + i] == KeyChar(b.constName[i]);
      KeyCharInjective(a.constName[i], b.constName[i]);
    }
  }

  /** In the key of a class name without dashes, the first dash ends the
      class part. */
  lemma DashPosition(e: ParameterEnum, key: string)
    requires '-' !in e.className && key == ToPropertyName(e)
    ensures key[|e.className|] == '-'
    ensures forall i :: 0 <= i < |e.className| ==> key[i] != '-'
  {
    forall i | 0 <= i < |e.className|
      ensures key[i] != '-'
    {
      assert key[i] == LowerChar(e.className[i]) && e.className[i] != '-';
    }
  }

  lemma KeyCharInjective(c: char, d: char)
    requires c != '-' && !('a' <= c <= 'z') && d != '-' && !('a' <= d <= 'z')
    requires KeyChar(c) == KeyChar(d)
    ensures c == d
  {
  }

  // ---------------------------------------------------------------------
  // The JDK conversions the getters rely on

  /** `toString()` of a stored value. */
  function ToString(v: Val): string {
    match v
    case Str(s) => s
    case Bool(b) => if b then "true" else "false"
    case Int(i) => Decimal(i)
    case Other(text) => text
  }

  /** `Boolean.valueOf(s)`: true exactly for "true" in any letter case. */
  function ParseBoolean(s: string): bool {
    ToLower(s) == "true"
  }

  predicate IsDigit(c: char) {
    '0' <= c <= '9'
  }

  predicate AllDigits(s: string) {
    forall i :: 0 <= i < |s| ==> IsDigit(s[i])
  }

  function DigitChar(d: nat): char
    requires d < 10
  {
    ('0' as int + d) as char
  }

  /** The value of a string of decimal digits. */
  function DigitsValue(s: string): nat
    requires forall i :: 0 <= i < |s| ==> IsDigit(s[i])
  {
    if s == [] then 0
    else
      assert IsDigit(s[|s| - 1]);
      10 * DigitsValue(s[..|s| - 1]) + (s[|s| - 1] as int - '0' as int)
  }

  /** `Integer.parseInt(s)`: an optional sign followed by at least one
      decimal digit, whose value lies in the 32-bit range; none otherwise
      (a NumberFormatException). */
  function ParseInt(s: string): Option<int>
  {
    if s == [] then None
    else
      var signed := s[0] == '-' || s[0] == '+';
      var digits := if signed then s[1..] else s;
      if digits == [] || !AllDigits(digits) then None
      else
        var n := DigitsValue(digits);
        var v: int := if s[0] == '-' then -(n as int) else n;
        if MinInt <= v <= MaxInt then Some(v) else None
  }

  /** The decimal digits of `n`, without leading zeros. */
  function DecimalNat(n: nat): (s: string)
    ensures s != [] && forall i :: 0 <= i < |s| ==> IsDigit(s[i])
    ensures IsDigit(s[0]) && s[0] != '-' && s[0] != '+'
  {
    if n < 10 then [DigitChar(n)] else DecimalNat(n / 10) + [DigitChar(n % 10)]
  }

  /** `Integer.toString(i)`. */
  function Decimal(i: int): string {
    if i < 0 then "-" + DecimalNat(-i) else DecimalNat(i)
  }

  /** Text with a character other than a decimal digit after the optional
      leading sign does not parse: getPropertyAsInt then reports
      NumberFormat. */
  lemma ParseIntRejectsNonDigit(s: string, k: nat)
    requires k < |s| && !IsDigit(s[k])
    requires k > 0 || (s[k] != '-' && s[k] != '+')
    ensures ParseInt(s) == None
  {
    if s[0] == '-' || s[0] == '+' {
      var digits := s[1..];
      assert digits[k - 1] == s[k];
      assert !IsDigit(digits[k - 1]);
    } else {
      assert !IsDigit(s[k]);
    }
  }

  lemma {:induction false} DigitsValueDecimal(n: nat)
    ensures DigitsValue(DecimalNat(n)) == n
  {
    if n >= 10 {
      DigitsValueDecimal(n / 10);
      var s := DecimalNat(n);
      assert s[..|s| - 1] == DecimalNat(n / 10);
    }
  }

  /** Parsing what `Integer.toString` prints gives back the integer: an
      Integer stored in the bag reads back unchanged through
      getPropertyAsInt. */
  lemma ParseIntDecimal(i: int)
    requires MinInt <= i <= MaxInt
    ensures ParseInt(Decimal(i)) == Some(i)
  {
    var s := Decimal(i);
    if i < 0 {
      DigitsValueDecimal(-i);
      assert s[1..] == DecimalNat(-i);
    } else {
      DigitsValueDecimal(i);
    }
  }

  /** `Properties.getProperty(key)`: the stored value if it is a String. */
  function StringProperty(m: map<string, Val>, key: string): (r: Option<string>)
    ensures r.Some? <==> key in m && m[key].Str?
    ensures r.Some? ==> m[key] == Str(r.value)
  {
    if key in m && m[key].Str? then Some(m[key].s) else None
  }

  // ---------------------------------------------------------------------
  // Storing a sequence of entries

  /** `put` of each entry in order. */
  function PutAll(m: map<string, Val>, entries: seq<(string, Val)>): map<string, Val>
  {
    if entries == [] then m
    else PutAll(m, entries[..|entries| - 1])[entries[|entries| - 1].0 := entries[|entries| - 1].1]
  }

  /** The last entry for a key decides its value: an entry that no later
      entry overrides is what the table holds. */
  lemma {:induction false} PutAllLaterWins(m: map<string, Val>, entries: seq<(string, Val)>, i: nat)
    requires i < |entries|
    requires forall j :: i < j < |entries| ==> entries[j].0 != entries[i].0
    ensures entries[i].0 in PutAll(m, entries)
    ensures PutAll(m, entries)[entries[i].0] == entries[i].1
  {
    if i < |entries| - 1 {
      PutAllLaterWins(m, entries[..|entries| - 1], i);
    }
  }

  /** Keys that no entry names keep their presence and value. */
  lemma {:induction false} PutAllUntouched(m: map<string, Val>, entries: seq<(string, Val)>, k: string)
    requires forall j :: 0 <= j < |entries| ==> entries[j].0 != k
    ensures k in PutAll(m, entries) <==> k in m
    ensures k in m ==> PutAll(m, entries)[k] == m[k]
  {
    if entries != [] {
      PutAllUntouched(m, entries[..|entries| - 1], k);
    }
  }

  /** The entries `store(names, values)` puts: name i's key with value i. */
  function Pairs(names: seq<ParameterEnum>, values: seq<Val>): (entries: seq<(string, Val)>)
    requires |names| == |values|
    ensures |entries| == |names|
    ensures forall i :: 0 <= i < |names| ==> entries[i] == (ToPropertyName(names[i]), values[i])
  {
    seq(|names|, i requires 0 <= i < |names| => (ToPropertyName(names[i]), values[i]))
  }

  /** Whether `Hashtable.put` accepts an option's entry: it has a long name
      (the key), and it is a flag or has a value. */
  predicate Storable(o: CliOption) {
    o.longOpt.Some? && (!o.hasArg || o.value.Some?)
  }

  /** The entry `buildFromOptions` puts for an option: `true` for a flag, its
      value otherwise, under its long name. */
  function OptionEntry(o: CliOption): (string, Val)
    requires Storable(o)
  {
    if !o.hasArg then (o.longOpt.value, Bool(true)) else (o.longOpt.value, Str(o.value.value))
  }

  function OptionEntries(opts: seq<CliOption>): (entries: seq<(string, Val)>)
    requires forall i :: 0 <= i < |opts| ==> Storable(opts[i])
    ensures |entries| == |opts| && forall i :: 0 <= i < |opts| ==> entries[i] == OptionEntry(opts[i])
  {
    seq(|opts|, i requires 0 <= i < |opts| => OptionEntry(opts[i]))
  }

  /** The index of the first option whose key or value is missing
      (`Hashtable.put` of either as null throws), or the number of options. */
  function FirstUnstorable(opts: seq<CliOption>): (k: nat)
    ensures k <= |opts|
    ensures forall i :: 0 <= i < k ==> Storable(opts[i])
    ensures k < |opts| ==> !Storable(opts[k])
  {
    if opts == [] || !Storable(opts[0]) then 0 else 1 + FirstUnstorable(opts[1..])
  }

  /** newOption(e, shortCut, description, hasArg): an option whose long name
      is the parameter's key. */
  function NewOption(e: ParameterEnum, shortCut: string, description: string, hasArg: bool): (o: CliOption)
    ensures o.longOpt == Some(ToPropertyName(e)) && o.opt == shortCut && o.hasArg == hasArg && o.value == None
  {
    CliOption(shortCut, Some(ToPropertyName(e)), hasArg, description, None)
  }

  /** An option made by newOption and given on the command line is read back
      through the parameter it was made from: its value by getProperty, and
      a flag as `true` by getPropertyAsBoolean. */
  lemma NewOptionRoundTrip(m: map<string, Val>, e: ParameterEnum, shortCut: string, description: string, hasArg: bool, value: string)
    ensures var o := NewOption(e, shortCut, description, hasArg).(value := Some(value));
      var r := PutAll(m, OptionEntries([o]));
      && (hasArg ==> StringProperty(r, ToPropertyName(e)) == Some(value))
      && (!hasArg ==> ToPropertyName(e) in r && ParseBoolean(ToString(r[ToPropertyName(e)])))
  {
    var o := NewOption(e, shortCut, description, hasArg).(value := Some(value));
    var entries := OptionEntries([o]);
    assert entries[..0] == [];
    assert ToLower("true") == "true";
  }

  /** The GeoWave runner arguments, in order. */
  const GeoWaveRunnerArguments: seq<ParameterEnum> := [
    ParameterEnum("Global", "ZOOKEEKER"),
    ParameterEnum("Global", "ACCUMULO_INSTANCE"),
    ParameterEnum("Global", "ACCUMULO_USER"),
    ParameterEnum("Global", "ACCUMULO_PASSWORD"),
    ParameterEnum("Global", "ACCUMULO_NAMESPACE")]

  /** PropertyManagement: the table of properties and its operations. */
  class PropertyManagement {
    var properties: map<string, Val>

    constructor ()
      ensures properties == map[]
    {
      properties := map[];
    }

    /** get(p): the value under the parameter's key, of any type. */
    function Get(p: ParameterEnum): (r: Option<Val>)
      reads this
      ensures r.Some? <==> ToPropertyName(p) in properties
      ensures r.Some? ==> r.value == properties[ToPropertyName(p)]
    {
      var key := ToPropertyName(p);
      if key in properties then Some(properties[key]) else None
    }

    /** store(p, v): `v` is now the value under p's key; nothing else changes. */
    method Store(p: ParameterEnum, v: Val)
      modifies this
      ensures properties == old(properties)[ToPropertyName(p) := v]
      ensures Get(p) == Some(v)
    {
      properties := properties[ToPropertyName(p) := v];
    }

    /** storeIfEmpty(p, v): stores and returns `v` when p's key is absent;
        otherwise changes nothing and returns the present value. A second
        call therefore changes nothing. */
    method StoreIfEmpty(p: ParameterEnum, v: Val) returns (r: Val)
      modifies this
      ensures ToPropertyName(p) !in old(properties) ==> properties == old(properties)[ToPropertyName(p) := v] && r == v
      ensures ToPropertyName(p) in old(properties) ==> properties == old(properties) && r == old(properties)[ToPropertyName(p)]
      ensures Get(p) == Some(r)
    {
      var key := ToPropertyName(p);
      if key !in properties {
        properties := properties[key := v];
        return v;
      }
      return properties[key];
    }

    /** copy(from, to): gives `to` the value of `from` when `from` is
        present, and otherwise changes nothing. */
    method Copy(from: ParameterEnum, to: ParameterEnum)
      modifies this
      ensures ToPropertyName(from) in old(properties) ==>
        properties == old(properties)[ToPropertyName(to) := old(properties)[ToPropertyName(from)]]
      ensures ToPropertyName(from) !in old(properties) ==> properties == old(properties)
    {
      if ToPropertyName(from) in properties {
        properties := properties[ToPropertyName(to) := properties[ToPropertyName(from)]];
      }
    }

    /** store(names, values): IllegalArgumentException, with nothing
        stored, when the lengths differ; otherwise stores name i's key with
        value i in index order, so a later duplicate wins. */
    method StoreAll(names: seq<ParameterEnum>, values: seq<Val>) returns (outcome: Outcome<PropertyError>)
      modifies this
      ensures |names| != |values| ==> outcome == Fail(IllegalArgument) && properties == old(properties)
      ensures |names| == |values| ==> outcome == Pass && properties == PutAll(old(properties), Pairs(names, values))
    {
      if |values| != |names| {
        return Fail(IllegalArgument);
      }
      ghost var entries := Pairs(names, values);
      var i := 0;
      while i < |values|
        invariant 0 <= i <= |values|
        invariant properties == PutAll(old(properties), entries[..i])
      {
        assert entries[..i + 1][..i] == entries[..i];
        properties := properties[ToPropertyName(names[i]) := values[i]];
        i := i + 1;
      }
      assert entries[..|values|] == entries;
      return Pass;
    }

    /** hasProperty(p): whether p's key holds a String. */
    function HasProperty(p: ParameterEnum): (r: bool)
      reads this
      ensures r <==> Get(p).Some? && Get(p).value.Str?
    {
      StringProperty(properties, ToPropertyName(p)).Some?
    }

    /** getProperty(p): the String under p's key; null for an absent key or
        a value of another type. */
    function GetProperty(p: ParameterEnum): (r: Option<string>)
      reads this
      ensures r.Some? <==> HasProperty(p)
      ensures r.Some? ==> Get(p) == Some(Str(r.value))
    {
      StringProperty(properties, ToPropertyName(p))
    }

    /** getProperty(p, defaultValue): the String under p's key, or the
        default when there is none. */
    function GetPropertyOrDefault(p: ParameterEnum, defaultValue: string): (r: string)
      reads this
      ensures HasProperty(p) ==> Get(p) == Some(Str(r))
      ensures !HasProperty(p) ==> r == defaultValue
    {
      match GetProperty(p)
      case Some(s) => s
      case None => defaultValue
    }

    /** getPropertyAsBoolean(p, defaultValue): the default for an absent
        key; otherwise whether the value's text is "true" in any case. */
    function GetPropertyAsBoolean(p: ParameterEnum, defaultValue: bool): (r: bool)
      reads this
      ensures Get(p).None? ==> r == defaultValue
      ensures Get(p).Some? ==> (r <==> ToLower(ToString(Get(p).value)) == "true")
    {
      var key := ToPropertyName(p);
      if key in properties then ParseBoolean(ToString(properties[key])) else defaultValue
    }

    /** getPropertyAsInt(p, defaultValue): the default for an absent key;
        otherwise the value's text parsed as a 32-bit integer, or a
        NumberFormatException naming the text. */
    function GetPropertyAsInt(p: ParameterEnum, defaultValue: int): (r: Result<int, PropertyError>)
      reads this
      ensures Get(p).None? ==> r == Success(defaultValue)
      ensures Get(p).Some? && ParseInt(ToString(Get(p).value)).Some? ==>
        r == Success(ParseInt(ToString(Get(p).value)).value)
      ensures Get(p).Some? && ParseInt(ToString(Get(p).value)).None? ==>
        r == Failure(NumberFormat(ToString(Get(p).value)))
      ensures r.Success? ==> MinInt <= r.value <= MaxInt || Get(p).None?
    {
      var key := ToPropertyName(p);
      if key !in properties then Success(defaultValue)
      else
        var text := ToString(properties[key]);
        match ParseInt(text)
        case Some(n) => Success(n)
        case None => Failure(NumberFormat(text))
    }

    /** What store puts is what the getters read: a Boolean reads back as
        itself through getPropertyAsBoolean, an Integer through
        getPropertyAsInt, and a String through getProperty with or without a
        default. */
    lemma StoredValueReadsBack(p: ParameterEnum, boolDefault: bool, intDefault: int, stringDefault: string)
      ensures Get(p).Some? && Get(p).value.Bool? ==>
        GetPropertyAsBoolean(p, boolDefault) == Get(p).value.b
      ensures Get(p).Some? && Get(p).value.Int? && MinInt <= Get(p).value.i <= MaxInt ==>
        GetPropertyAsInt(p, intDefault) == Success(Get(p).value.i)
      ensures Get(p).Some? && Get(p).value.Str? ==>
        GetProperty(p) == Some(Get(p).value.s) && GetPropertyOrDefault(p, stringDefault) == Get(p).value.s
    {
      if Get(p).Some? {
        match Get(p).value
        case Bool(b) =>
          assert ToLower("true") == "true";
          assert ToLower("false")[0] == 'f';
        case Int(i) =>
          if MinInt <= i <= MaxInt {
            ParseIntDecimal(i);
          }
        case _ =>
      }
    }

    /** toArguments(names): a new array holding, for each name, the String
        under its key or "" when there is none. */
    method ToArguments(names: seq<ParameterEnum>) returns (resultArgs: array<string>)
      ensures fresh(resultArgs) && resultArgs.Length == |names|
      ensures forall i :: 0 <= i < |names| ==> resultArgs[i] == GetPropertyOrDefault(names[i], "")
    {
      resultArgs := new string[|names|];
      var i := 0;
      while i < |names|
        invariant 0 <= i <= |names|
        invariant forall j :: 0 <= j < i ==> resultArgs[j] == GetPropertyOrDefault(names[j], "")
      {
        resultArgs[i] := GetPropertyOrDefault(names[i], "");
        i := i + 1;
      }
    }

    /** toGeoWaveRunnerArguments: toArguments of the GeoWave runner
        arguments. */
    method ToGeoWaveRunnerArguments() returns (resultArgs: array<string>)
      ensures fresh(resultArgs) && resultArgs.Length == |GeoWaveRunnerArguments|
      ensures forall i :: 0 <= i < |GeoWaveRunnerArguments| ==>
        resultArgs[i] == GetPropertyOrDefault(GeoWaveRunnerArguments[i], "")
    {
      resultArgs := ToArguments(GeoWaveRunnerArguments);
    }

    /** buildFromOptions(commandLine): puts each option in order under its
        long name, `true` for a flag and its value otherwise; an option
        lacking its long name or its value throws a NullPointerException,
        leaving the earlier options stored. */
    method BuildFromOptions(commandLine: seq<CliOption>) returns (outcome: Outcome<PropertyError>)
      modifies this
      ensures properties == PutAll(old(properties), OptionEntries(commandLine[..FirstUnstorable(commandLine)]))
      ensures outcome == if FirstUnstorable(commandLine) == |commandLine| then Pass else Fail(NullPointer)
    {
      ghost var k := FirstUnstorable(commandLine);
      ghost var entries := OptionEntries(commandLine[..k]);
      var i := 0;
      while i < |commandLine|
        invariant 0 <= i <= k
        invariant properties == PutAll(old(properties), entries[..i])
      {
        var option := commandLine[i];
        if option.longOpt.None? {
          assert i == k && entries[..i] == entries;
          return Fail(NullPointer);
        }
        if !option.hasArg {
          properties := properties[option.longOpt.value := Bool(true)];
        } else if option.value.Some? {
          properties := properties[option.longOpt.value := Str(option.value.value)];
        } else {
          assert i == k && entries[..i] == entries;
          return Fail(NullPointer);
        }
        assert entries[..i + 1][..i] == entries[..i];
        i := i + 1;
      }
      assert entries[..i] == entries;
      return Pass;
    }
  }

  /** A mutable set of command-line options. */
  class OptionSet {
    var contents: set<CliOption>

    constructor (contents: set<CliOption>)
      ensures this.contents == contents
    {
      this.contents := contents;
    }
  }

  /** removeOption(options, parameter): visits the options in the set's
      order and removes the first one whose long name is the parameter's
      key; visiting an option without a long name before that throws a
      NullPointerException, with nothing removed. */
  method RemoveOption(options: OptionSet, parameter: ParameterEnum) returns (outcome: Outcome<PropertyError>)
    modifies options
    ensures outcome == Pass || outcome == Fail(NullPointer)
    ensures outcome.Fail? ==>
      options.contents == old(options.contents) && exists o :: o in old(options.contents) && o.longOpt.None?
    ensures (outcome.Pass? && exists o :: o in old(options.contents) && o.longOpt == Some(ToPropertyName(parameter))) ==>
      exists o :: o in old(options.contents) && o.longOpt == Some(ToPropertyName(parameter))
        && options.contents == old(options.contents) - {o}
    ensures outcome.Pass? ==> (options.contents == old(options.contents)
      || exists o :: o in old(options.contents) && o.longOpt == Some(ToPropertyName(parameter))
           && options.contents == old(options.contents) - {o})
    ensures (forall o :: o in old(options.contents) ==> o.longOpt != Some(ToPropertyName(parameter))) ==>
      options.contents == old(options.contents)
      && (outcome == Pass <==> forall o :: o in old(options.contents) ==> o.longOpt.Some?)
    ensures ((forall o :: o in old(options.contents) ==> o.longOpt.Some?)
      && (exists o :: o in old(options.contents) && o.longOpt == Some(ToPropertyName(parameter)))) ==>
      outcome == Pass
      && exists o :: o in old(options.contents) && o.longOpt == Some(ToPropertyName(parameter))
           && options.contents == old(options.contents) - {o}
  {
    var key := ToPropertyName(parameter);
    var remaining := options.contents;
    while remaining != {}
      invariant remaining <= options.contents == old(options.contents)
      invariant forall o :: o in old(options.contents) && o !in remaining ==> o.longOpt.Some? && o.longOpt != Some(key)
      decreases remaining
    {
      var option :| option in remaining;
      if option.longOpt.None? {
        return Fail(NullPointer);
      }
      if option.longOpt.value == key {
        options.contents := options.contents - {option};
        return Pass;
      }
      remaining := remaining - {option};
    }
    return Pass;
  }
}
