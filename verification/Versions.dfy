/** Release version names and the one update code every platform compares
    (scripts/release/release_version.py). */
module Versions {
  import opened Text

  const CUTOVER_CORE_CODE := 26_000
  const MAXIMUM_CODE := 2_100_000_000
  const BETA_SLOT_MAXIMUM := 98
  const STABLE_SLOT := 99

  datatype Channel = Stable | Beta

  datatype Core = Core(major: nat, minor: nat, patch: nat) {
    function Code(): nat { major * 1_000_000 + minor * 1_000 + patch }
  }

  /** `channel` is None below the cutover. */
  datatype Version = Version(name: string, code: nat, channel: Option<Channel>, core: Core) {
    predicate Unified() { channel.Some? }
  }

  // ---- parsing ------------------------------------------------------------------

  predicate IsDigit(c: char) { '0' <= c <= '9' }

  predicate AllDigits(s: string) { forall c | c in s :: IsDigit(c) }

  predicate SuffixChar(c: char) { IsDigit(c) || 'A' <= c <= 'Z' || 'a' <= c <= 'z' || c == '.' }

  function Value(s: string): nat
    requires AllDigits(s)
  {
    if s == "" then 0
    else
      assert IsDigit(s[|s| - 1]);
      Value(s[..|s| - 1]) * 10 + (s[|s| - 1] as int - '0' as int)
  }

  /** `[0-9]{1,9}` read as a number. */
  function Number(s: string): Option<nat> {
    if 1 <= |s| <= 9 && AllDigits(s) then Some(Value(s)) else None
  }

  function ParseCore(text: string): Option<Core> {
    var rest := After(text, '.');
    match (Number(Before(text, '.')), Number(Before(rest, '.')), Number(After(rest, '.')))
    case (Some(major), Some(minor), Some(patch)) => Some(Core(major, minor, patch))
    case _ => None
  }

  /** `beta\.([1-9][0-9]?)` with a number up to 98. */
  function BetaNumber(suffix: string): Option<nat> {
    if 6 <= |suffix| <= 7 && suffix[..5] == "beta." && suffix[5] != '0' then
      match Number(suffix[5..])
      case Some(n) => if 1 <= n <= BETA_SLOT_MAXIMUM then Some(n) else None
      case None => None
    else
      None
  }

  function ParseVersion(name: string): Option<Version> {
    var text, suffix := Before(name, '-'), After(name, '-');
    if |name| > 64 || (|text| < |name| && !SuffixText(suffix)) then None
    else
      match ParseCore(text)
      case None => None
      case Some(core) => Grade(name, core, suffix)
  }

  predicate SuffixText(suffix: string) {
    suffix != "" && forall c | c in suffix :: SuffixChar(c)
  }

  function Grade(name: string, core: Core, suffix: string): Option<Version> {
    if core.major >= 1_000_000 || core.minor >= 1_000 || core.patch >= 1_000 then None
    else if core.Code() < CUTOVER_CORE_CODE then Some(Version(name, core.Code(), None, core))
    else if suffix == "" then Ceiled(Version(name, core.Code() * 100 + STABLE_SLOT, Some(Stable), core))
    else
      match BetaNumber(suffix)
      case None => None
      case Some(slot) => Ceiled(Version(name, core.Code() * 100 + slot, Some(Beta), core))
  }

  function Ceiled(version: Version): Option<Version> {
    if version.code > MAXIMUM_CODE then None else Some(version)
  }

  /** A coordinated release tag: `v` and a unified version. */
  function ParseTag(tag: string): (parsed: Option<Version>)
    ensures parsed.Some? ==> parsed.value.Unified() && tag == "v" + parsed.value.name
  {
    if tag != "" && tag[0] == 'v' then
      match ParseVersion(tag[1..])
      case Some(version) => if version.Unified() then Some(version) else None
      case None => None
    else
      None
  }

  /** -1, 0 or 1 by update order; None when either name is not a version. */
  function Compare(a: string, b: string): Option<int> {
    match (ParseVersion(a), ParseVersion(b))
    case (Some(left), Some(right)) =>
      Some(if left.code > right.code then 1 else if left.code < right.code then -1 else 0)
    case _ => None
  }

  // ---- the order of names, read off the names themselves ---------------------------

  /** A Beta's number, or the slot above every Beta. */
  function Slot(name: string): nat {
    match BetaNumber(After(name, '-'))
    case Some(n) => n
    case None => STABLE_SLOT
  }

  predicate CoreBefore(a: Core, b: Core) {
    a.major < b.major || (a.major == b.major && (a.minor < b.minor || (a.minor == b.minor && a.patch < b.patch)))
  }

  predicate ReleasedBefore(a: Version, b: Version) {
    CoreBefore(a.core, b.core) || (a.core == b.core && Slot(a.name) < Slot(b.name))
  }

  lemma ParsedShape(name: string)
    requires ParseVersion(name).Some?
    ensures var v := ParseVersion(name).value;
      && v.name == name && v.core.minor < 1_000 && v.core.patch < 1_000
      && (v.Unified() ==> v.code == v.core.Code() * 100 + Slot(name) && 1 <= Slot(name) <= STABLE_SLOT)
      && (v.Unified() ==> CUTOVER_CORE_CODE <= v.core.Code() && v.core.major <= 20 && v.code <= MAXIMUM_CODE)
      && (v.channel == Some(Stable) ==> Slot(name) == STABLE_SLOT)
      && (v.channel == Some(Beta) ==> Slot(name) <= BETA_SLOT_MAXIMUM)
      && (!v.Unified() ==> v.code == v.core.Code() < CUTOVER_CORE_CODE)
  {
    assert BetaNumber("") == None;
  }

  lemma CoreCodeOrder(a: Core, b: Core)
    requires a.minor < 1_000 && a.patch < 1_000 && b.minor < 1_000 && b.patch < 1_000
    ensures a.Code() < b.Code() <==> CoreBefore(a, b)
    ensures a.Code() == b.Code() <==> a == b
  {
  }

  /** The update code orders unified names exactly as (core, slot) does, and is
      equal exactly when both agree. */
  lemma CodeIsUpdateOrder(a: string, b: string)
    requires ParseVersion(a).Some? && ParseVersion(a).value.Unified()
    requires ParseVersion(b).Some? && ParseVersion(b).value.Unified()
    ensures var v, w := ParseVersion(a).value, ParseVersion(b).value;
      && (v.code < w.code <==> ReleasedBefore(v, w))
      && (v.code == w.code <==> v.core == w.core && Slot(a) == Slot(b))
      && Compare(a, b) == Some(if ReleasedBefore(v, w) then -1 else if ReleasedBefore(w, v) then 1 else 0)
  {
    hide ParseVersion, Slot;
    ParsedShape(a);
    ParsedShape(b);
    var v, w := ParseVersion(a).value, ParseVersion(b).value;
    CoreCodeOrder(v.core, w.core);
    hide CoreBefore, Core.Code;
  }

  /** Every code from before the cutover is below every unified code. */
  lemma CutoverOnlyRaises(legacy: string, unified: string)
    requires ParseVersion(legacy).Some? && !ParseVersion(legacy).value.Unified()
    requires ParseVersion(unified).Some? && ParseVersion(unified).value.Unified()
    ensures Compare(legacy, unified) == Some(-1)
  {
    ParsedShape(legacy);
    ParsedShape(unified);
  }

  /** The tags accepted are exactly `v` before each unified name. */
  lemma TagsAreUnifiedNames(tag: string, version: Version)
    ensures ParseTag(tag) == Some(version) <==>
      tag == "v" + version.name && ParseVersion(version.name) == Some(version) && version.Unified()
  {
    hide ParseVersion;
    assert ("v" + version.name)[1..] == version.name;
    if ParseTag(tag) == Some(version) {
      assert tag == "v" + tag[1..];
      NamedAsParsed(tag[1..]);
    }
  }

  lemma NamedAsParsed(name: string)
    ensures ParseVersion(name).Some? ==> ParseVersion(name).value.name == name
  {
    hide ParseCore, BetaNumber, Before, After;
  }

  // ---- writing names ------------------------------------------------------------------

  function Decimal(n: nat): string {
    if n < 10 then [('0' as int + n) as char]
    else Decimal(n / 10) + [('0' as int + n % 10) as char]
  }

  function CoreName(core: Core): string {
    Decimal(core.major) + "." + (Decimal(core.minor) + "." + Decimal(core.patch))
  }

  function VersionName(core: Core, slot: nat): string {
    if slot == STABLE_SLOT then CoreName(core) else CoreName(core) + "-" + ("beta." + Decimal(slot))
  }

  /** A bound on the digits of a number, and so on the length of a name. */
  lemma {:induction false} DecimalReads(n: nat, width: nat, bound: nat)
    requires n < bound && bound == Power(width) && width >= 1
    ensures AllDigits(Decimal(n)) && Value(Decimal(n)) == n
    ensures 1 <= |Decimal(n)| <= width
    ensures n > 0 ==> Decimal(n)[0] != '0'
  {
    if n < 10 {
      assert Value("") == 0;
    } else {
      assert width > 1;
      DecimalReads(n / 10, width - 1, Power(width - 1));
      var s := Decimal(n);
      assert s[..|s| - 1] == Decimal(n / 10);
    }
  }

  function Power(width: nat): nat {
    if width == 0 then 1 else 10 * Power(width - 1)
  }

  lemma CoreTextReads(major: string, minor: string, patch: string)
    requires Number(major).Some? && Number(minor).Some? && Number(patch).Some?
    ensures ParseCore(major + "." + (minor + "." + patch))
         == Some(Core(Number(major).value, Number(minor).value, Number(patch).value))
    ensures '-' !in major + "." + (minor + "." + patch)
  {
    BeforeIsFirst(major, '.', minor + "." + patch);
    BeforeIsFirst(minor, '.', patch);
  }

  lemma DecimalIsNumber(n: nat, width: nat)
    requires n < Power(width) && 1 <= width <= 9
    ensures Number(Decimal(n)) == Some(n) && |Decimal(n)| <= width
  {
    DecimalReads(n, width, Power(width));
  }

  lemma CoreNameReads(core: Core)
    requires core.major < 1_000_000 && core.minor < 1_000 && core.patch < 1_000
    ensures ParseCore(CoreName(core)) == Some(core)
    ensures '-' !in CoreName(core) && |CoreName(core)| <= 14
  {
    Powers();
    DecimalIsNumber(core.major, 6);
    DecimalIsNumber(core.minor, 3);
    DecimalIsNumber(core.patch, 3);
    CoreTextReads(Decimal(core.major), Decimal(core.minor), Decimal(core.patch));
  }

  lemma Powers()
    ensures Power(2) == 100 && Power(3) == 1_000 && Power(6) == 1_000_000
  {
    assert Power(1) == 10 && Power(4) == 10_000 && Power(5) == 100_000;
  }

  lemma BetaSuffixReads(n: nat)
    requires 1 <= n <= BETA_SLOT_MAXIMUM
    ensures BetaNumber("beta." + Decimal(n)) == Some(n)
    ensures SuffixText("beta." + Decimal(n)) && |"beta." + Decimal(n)| <= 7
  {
    Powers();
    DecimalReads(n, 2, 100);
    var s := "beta." + Decimal(n);
    assert s[5..] == Decimal(n) && s[5] == Decimal(n)[0];
  }

  /** What a name reads as, from what its two halves read as. */
  lemma NameReads(text: string, core: Core, suffix: string)
    requires ParseCore(text) == Some(core) && '-' !in text && |text| <= 64
    ensures ParseVersion(text) == Grade(text, core, "")
    ensures |text| + 1 + |suffix| <= 64 && SuffixText(suffix) ==>
      ParseVersion(text + "-" + suffix) == Grade(text + "-" + suffix, core, suffix)
  {
    BeforeIsAll(text, '-');
    BeforeIsFirst(text, '-', suffix);
  }

  lemma GradeAccepts(name: string, core: Core, suffix: string, slot: nat)
    requires core.major < 1_000_000 && core.minor < 1_000 && core.patch < 1_000
    requires CUTOVER_CORE_CODE <= core.Code()
    requires if suffix == "" then slot == STABLE_SLOT else BetaNumber(suffix) == Some(slot)
    ensures Grade(name, core, suffix) ==
      if core.major <= 20
      then Some(Version(name, core.Code() * 100 + slot, Some(if suffix == "" then Stable else Beta), core))
      else None
  {
  }

  /** Every core from the cutover on and every slot has a name; the name is
      accepted exactly when its major is at most 20, and then its code and
      channel are those of the core and slot it was written from. */
  lemma NamesRoundTrip(core: Core, slot: nat)
    requires core.major < 1_000_000 && core.minor < 1_000 && core.patch < 1_000
    requires CUTOVER_CORE_CODE <= core.Code() && 1 <= slot <= STABLE_SLOT
    ensures var name := VersionName(core, slot);
      ParseVersion(name) ==
        if core.major <= 20
        then Some(Version(name, core.Code() * 100 + slot, Some(if slot == STABLE_SLOT then Stable else Beta), core))
        else None
  {
    hide ParseVersion, ParseCore, CoreName, Decimal, BetaNumber;
    CoreNameReads(core);
    var suffix := if slot == STABLE_SLOT then "" else "beta." + Decimal(slot);
    if slot != STABLE_SLOT { BetaSuffixReads(slot); }
    NameReads(CoreName(core), core, suffix);
    GradeAccepts(VersionName(core, slot), core, suffix, slot);
  }

  // ---- which names are accepted --------------------------------------------------------

  /** One to nine decimal digits. */
  predicate DigitText(s: string) { 1 <= |s| <= 9 && forall c | c in s :: '0' <= c <= '9' }

  /** `major.minor.patch`, or that with a suffix after a hyphen. */
  ghost predicate Spelled(name: string, major: string, minor: string, patch: string, suffix: Option<string>) {
    && DigitText(major) && DigitText(minor) && DigitText(patch)
    && var text := major + "." + (minor + "." + patch);
       name == match suffix case None => text case Some(s) => text + "-" + s
  }

  /** Letters, digits and dots. */
  predicate Plain(s: string) {
    s != "" && forall c | c in s :: '0' <= c <= '9' || 'A' <= c <= 'Z' || 'a' <= c <= 'z' || c == '.'
  }

  /** `beta.1` to `beta.98`. */
  ghost predicate BetaSuffix(s: string) { exists n :: 1 <= n <= 98 && s == "beta." + Decimal(n) }

  /** From 0.26.0 on a suffix numbers a Beta, and majors end at 20. */
  ghost predicate Permitted(core: Core, suffix: Option<string>) {
    && core.minor < 1_000 && core.patch < 1_000 && core.major <= 20 && (suffix.Some? ==> Plain(suffix.value))
    && ((core.major == 0 && core.minor < 26) || (suffix.Some? ==> BetaSuffix(suffix.value)))
  }

  ghost predicate IsName(name: string, major: string, minor: string, patch: string, suffix: Option<string>) {
    Spelled(name, major, minor, patch, suffix) && Permitted(Core(Value(major), Value(minor), Value(patch)), suffix)
  }

  lemma {:induction false} BetaNumberIs(suffix: string)
    ensures BetaNumber(suffix).Some? <==> BetaSuffix(suffix)
  {
    if BetaSuffix(suffix) {
      var n :| 1 <= n <= 98 && suffix == "beta." + Decimal(n);
      BetaSuffixReads(n);
    }
    if BetaNumber(suffix).Some? {
      var digits := suffix[5..];
      TwoDigits(digits);
      assert suffix == suffix[..5] + digits;
    }
  }

  lemma OneDigit(c: char)
    requires IsDigit(c)
    ensures Value([c]) == c as int - '0' as int && Decimal(c as int - '0' as int) == [c]
  {
    assert [c][..0] == "" && [c][0] == c;
  }

  lemma TwoDigitsRead(c: char, d: char)
    requires IsDigit(c) && IsDigit(d)
    ensures Value([c, d]) == (c as int - '0' as int) * 10 + (d as int - '0' as int)
  {
    OneDigit(c);
    assert [c, d][..1] == [c] && [c, d][1] == d;
    hide Decimal;
  }

  lemma TwoDigitsWritten(m: nat, n: nat)
    requires 1 <= m < 10 && n < 10
    ensures Decimal(m * 10 + n) == ['0' + m as char, '0' + n as char]
  {
    assert (m * 10 + n) / 10 == m && (m * 10 + n) % 10 == n;
    assert Decimal(m) == [('0' as int + m) as char];
  }

  /** One or two digits, the first not zero, are the number they write. */
  lemma TwoDigits(s: string)
    requires 1 <= |s| <= 2 && AllDigits(s) && s[0] != '0'
    ensures s == Decimal(Value(s)) && Value(s) > 0
  {
    hide Value, Decimal;
    assert IsDigit(s[0]);
    if |s| == 2 {
      assert IsDigit(s[1]);
      assert s == [s[0], s[1]];
      TwoDigitsRead(s[0], s[1]);
      TwoDigitsWritten(s[0] as int - '0' as int, s[1] as int - '0' as int);
    } else {
      assert s == [s[0]];
      OneDigit(s[0]);
    }
  }

  lemma NumberIs(s: string)
    ensures Number(s).Some? <==> DigitText(s)
    ensures Number(s).Some? ==> Number(s).value == Value(s)
  {
  }

  lemma DigitsHaveNoMarks(s: string)
    requires DigitText(s)
    ensures '.' !in s && '-' !in s
  {
  }

  /** The names accepted are exactly those. */
  lemma AcceptedExactly(name: string)
    ensures ParseVersion(name).Some? <==> |name| <= 64 && exists major, minor, patch, suffix ::
      IsName(name, major, minor, patch, suffix)
  {
    hide ParseVersion, Value;
    if ParseVersion(name).Some? {
      var major, minor, patch, suffix := Parts(name);
    }
    if |name| <= 64 && exists major, minor, patch, suffix :: IsName(name, major, minor, patch, suffix) {
      var major, minor, patch, suffix :| IsName(name, major, minor, patch, suffix);
      NameParses(name, major, minor, patch, suffix);
    }
  }

  lemma GradeExactly(name: string, core: Core, suffix: string)
    ensures Grade(name, core, suffix).Some? <==>
      && core.minor < 1_000 && core.patch < 1_000 && core.major <= 20
      && ((core.major == 0 && core.minor < 26) || suffix == "" || BetaNumber(suffix).Some?)
  {
    hide BetaNumber;
    var slots := BetaNumber(suffix);
    assert core.major == 0 && core.minor < 26 ==> core.minor * 1_000 <= 25_000;
    SlotRange(suffix);
  }

  lemma SlotRange(suffix: string)
    ensures BetaNumber(suffix).Some? ==> 1 <= BetaNumber(suffix).value <= 98
  {
  }

  lemma CutAt(s: string, c: char)
    requires c in s
    ensures s == Before(s, c) + [c] + After(s, c)
  {
    var n := |Before(s, c)|;
    assert Before(s, c) == s[..n];
    hide Before;
    assert n < |s|;
    assert s == s[..n] + [s[n]] + s[n + 1..];
  }

  lemma NoneToCut(s: string, c: char)
    ensures c !in s <==> |Before(s, c)| == |s|
    ensures |Before(s, c)| == |s| ==> Before(s, c) == s && After(s, c) == ""
  {
    if c !in s { BeforeIsAll(s, c); }
  }

  lemma CoreParts(text: string) returns (major: string, minor: string, patch: string)
    requires ParseCore(text).Some?
    ensures DigitText(major) && DigitText(minor) && DigitText(patch) && text == major + "." + (minor + "." + patch)
    ensures ParseCore(text).value == Core(Value(major), Value(minor), Value(patch))
  {
    hide Before, After, Value;
    var rest := After(text, '.');
    major, minor, patch := Before(text, '.'), Before(rest, '.'), After(rest, '.');
    NumberIs(major);
    NumberIs(minor);
    NumberIs(patch);
    NumberIs("");
    hide Number;
    NoneToCut(text, '.');
    NoneToCut(rest, '.');
    BeforeIsAll("", '.');
    CutAt(text, '.');
    CutAt(rest, '.');
  }

  lemma Parts(name: string) returns (major: string, minor: string, patch: string, suffix: Option<string>)
    requires ParseVersion(name).Some?
    ensures |name| <= 64 && IsName(name, major, minor, patch, suffix)
  {
    hide Before, After, Value, ParseCore, BetaNumber, Grade;
    var text, tail := Before(name, '-'), After(name, '-');
    major, minor, patch := CoreParts(text);
    NoneToCut(name, '-');
    if '-' in name {
      suffix := Some(tail);
      CutAt(name, '-');
    } else {
      suffix := None;
    }
    BetaNumberIs(tail);
    GradeExactly(name, ParseCore(text).value, tail);
    hide BetaSuffix;
  }

  lemma NameParses(name: string, major: string, minor: string, patch: string, suffix: Option<string>)
    requires |name| <= 64 && IsName(name, major, minor, patch, suffix)
    ensures ParseVersion(name).Some?
  {
    hide Before, After, Value, ParseCore, BetaNumber, ParseVersion, Grade, BetaSuffix;
    var text, core := major + "." + (minor + "." + patch), Core(Value(major), Value(minor), Value(patch));
    NumberIs(major);
    NumberIs(minor);
    NumberIs(patch);
    CoreTextReads(major, minor, patch);
    var tail := if suffix.Some? then suffix.value else "";
    NameReads(text, core, tail);
    BetaNumberIs(tail);
    GradeExactly(name, core, tail);
  }

  /** Below the cutover any suffix is accepted and none of it counts: the code is
      the legacy formula. */
  lemma LegacyIgnoresSuffix(core: Core, suffix: string)
    requires core.minor < 1_000 && core.patch < 1_000 && core.Code() < CUTOVER_CORE_CODE
    requires SuffixText(suffix) && |CoreName(core)| + 1 + |suffix| <= 64
    ensures ParseVersion(CoreName(core) + "-" + suffix)
         == Some(Version(CoreName(core) + "-" + suffix, core.Code(), None, core))
  {
    hide ParseVersion, ParseCore, CoreName, SuffixText;
    CoreNameReads(core);
    NameReads(CoreName(core), core, suffix);
  }

  /** A code does not name one version: leading zeros are accepted, so two
      different tags can carry the same code. */
  lemma LeadingZerosShareACode()
    ensures exists a, b ::
      && ParseVersion(a).Some? && ParseVersion(b).Some? && a != b
      && ParseVersion(a).value.Unified() && ParseVersion(a).value.code == ParseVersion(b).value.code
  {
    var a, b := "0" + "." + ("26" + "." + "0"), "00" + "." + ("26" + "." + "0");
    assert |a| != |b|;
    ShortNumbers();
    CoreTextReads("0", "26", "0");
    CoreTextReads("00", "26", "0");
    NameReads(a, Core(0, 26, 0), "");
    NameReads(b, Core(0, 26, 0), "");
  }

  lemma ShortNumbers()
    ensures Number("0") == Some(0) && Number("00") == Some(0) && Number("26") == Some(26)
  {
    assert Value("0") == 0 by { assert "0"[..0] == ""; }
    assert Value("2") == 2 by { assert "2"[..0] == ""; }
    assert Value("00") == 0 by { assert "00"[..1] == "0"; }
    assert Value("26") == 26 by { assert "26"[..1] == "2"; }
  }
}
