/**
  Output names: matching a configured target, printing, and the order outputs are laid out in.

  Strings are sequences of UTF-8 bytes, because matching slices its target by byte length.
 */
module OutputNames {
  import opened Options

  type byte = b: int | 0 <= b < 256
  type Str = seq<byte>

  const SPACE: byte := 32
  /** "Unknown" */
  const UNKNOWN: Str := [85, 110, 107, 110, 111, 119, 110]

  datatype OutputName = OutputName(
    connector: Str,
    make: Option<Str>,
    model: Option<Str>,
    serial: Option<Str>)
  {
    predicate HasDescription() {
      make.Some? || model.Some? || serial.Some?
    }
  }

  function OrUnknown(s: Option<Str>): Str {
    if s.Some? then s.value else UNKNOWN
  }

  function FormatMakeModelSerial(name: OutputName): Str {
    OrUnknown(name.make) + [SPACE] + OrUnknown(name.model) + [SPACE] + OrUnknown(name.serial)
  }

  function FormatMakeModelSerialOrConnector(name: OutputName): Str {
    if name.HasDescription() then FormatMakeModelSerial(name) else name.connector
  }

  // ----- matching

  function ToAsciiLowercase(b: byte): byte {
    if 65 <= b <= 90 then b + 32 else b
  }

  predicate EqIgnoreAsciiCase(a: Str, b: Str) {
    |a| == |b| && forall i | 0 <= i < |a| :: ToAsciiLowercase(a[i]) == ToAsciiLowercase(b[i])
  }

  predicate IsCharBoundary(s: Str, n: nat) {
    n <= |s| && (n < |s| ==> n == 0 || !(128 <= s[n] < 192))
  }

  /** The first `n` bytes, unless they are not there or end inside a character. */
  function GetPrefix(s: Str, n: nat): Option<Str> {
    if IsCharBoundary(s, n) then Some(s[..n]) else None
  }

  /** Strips `field` and the space after it from the front of `target`, ignoring ASCII case. */
  function StripField(target: Str, field: Str): Option<Str> {
    var prefix := GetPrefix(target, |field|);
    if prefix.None? || !EqIgnoreAsciiCase(prefix.value, field) then None
    else
      var rest := target[|field|..];
      if rest == [] || rest[0] != SPACE then None else Some(rest[1..])
  }

  predicate Matches(name: OutputName, target: Str) {
    if EqIgnoreAsciiCase(target, name.connector) then true
    else if !name.HasDescription() then false
    else
      var afterMake := StripField(target, OrUnknown(name.make));
      afterMake.Some? &&
      var afterModel := StripField(afterMake.value, OrUnknown(name.model));
      afterModel.Some? && EqIgnoreAsciiCase(afterModel.value, OrUnknown(name.serial))
  }

  /** Stripping succeeds exactly on the field, a space and anything, up to ASCII case. */
  lemma StripFieldIff(target: Str, field: Str, tail: Str)
    ensures EqIgnoreAsciiCase(target, field + [SPACE] + tail) <==>
      StripField(target, field).Some? && EqIgnoreAsciiCase(StripField(target, field).value, tail)
    ensures StripField(target, field).Some? ==> IsCharBoundary(target, |field|)
  {
  }

  /**
    The field-by-field matching is comparison with the connector or the printed description: the
    slicing accepts nothing else and rejects nothing of it.
   */
  lemma MatchesIff(name: OutputName, target: Str)
    ensures Matches(name, target) <==>
      || EqIgnoreAsciiCase(target, name.connector)
      || (name.HasDescription() && EqIgnoreAsciiCase(target, FormatMakeModelSerial(name)))
  {
    var make, model, serial := OrUnknown(name.make), OrUnknown(name.model), OrUnknown(name.serial);
    var afterMake := model + [SPACE] + serial;
    assert FormatMakeModelSerial(name) == make + [SPACE] + afterMake;
    StripFieldIff(target, make, afterMake);
    if StripField(target, make).Some? {
      StripFieldIff(StripField(target, make).value, model, serial);
    }
  }

  lemma MatchesItsOwnNames(name: OutputName)
    ensures Matches(name, name.connector)
    ensures Matches(name, FormatMakeModelSerialOrConnector(name))
  {
    MatchesIff(name, FormatMakeModelSerialOrConnector(name));
  }

  /** Ignoring ASCII case is ignoring the difference between A to Z and a to z. */
  lemma EqIgnoreAsciiCaseIff(a: Str, b: Str)
    ensures EqIgnoreAsciiCase(a, b) <==>
      |a| == |b| && forall i | 0 <= i < |a| ::
        || a[i] == b[i]
        || ('A' as int <= a[i] <= 'Z' as int && b[i] == a[i] + 'a' as int - 'A' as int)
        || ('A' as int <= b[i] <= 'Z' as int && a[i] == b[i] + 'a' as int - 'A' as int)
  {
  }

  function Bytes(s: string): Str
    requires forall i | 0 <= i < |s| :: s[i] < 128 as char
  {
    seq(|s|, i requires 0 <= i < |s| => s[i] as int)
  }

  /** Two descriptions in full, one with missing parts. */
  lemma DescriptionExamples()
    ensures FormatMakeModelSerial(OutputName(Bytes("DP-1"), Some(Bytes("Some Company")), Some(Bytes("CoolMonitor")), Some(Bytes("1234"))))
      == Bytes("Some Company CoolMonitor 1234")
    ensures FormatMakeModelSerial(OutputName(Bytes("DP-1"), None, Some(Bytes("CoolMonitor")), None))
      == Bytes("Unknown CoolMonitor Unknown")
  {
  }

  // ----- ordering

  datatype Ordering = Less | Equal | Greater {
    function Reverse(): Ordering {
      match this case Less => Greater case Equal => Equal case Greater => Less
    }

    function Then(next: Ordering): Ordering {
      if this == Equal then next else this
    }
  }

  function CompareStr(a: Str, b: Str): Ordering {
    if a == [] then (if b == [] then Equal else Less)
    else if b == [] then Greater
    else if a[0] < b[0] then Less
    else if a[0] > b[0] then Greater
    else CompareStr(a[1..], b[1..])
  }

  function CompareOption(a: Option<Str>, b: Option<Str>): Ordering {
    match (a, b)
    case (None, None) => Equal
    case (None, Some(_)) => Less
    case (Some(_), None) => Greater
    case (Some(x), Some(y)) => CompareStr(x, y)
  }

  function Compare(a: OutputName, b: OutputName): Ordering {
    match (a.HasDescription(), b.HasDescription())
    case (false, false) => CompareStr(a.connector, b.connector)
    case (false, true) => Greater
    case (true, false) => Less
    case (true, true) =>
      CompareOption(a.make, b.make)
      .Then(CompareOption(a.model, b.model))
      .Then(CompareOption(a.serial, b.serial))
      .Then(CompareStr(a.connector, b.connector))
  }

  lemma {:induction false} CompareStrIsOrder(a: Str, b: Str)
    ensures CompareStr(a, b) == Equal <==> a == b
    ensures CompareStr(b, a) == CompareStr(a, b).Reverse()
  {
    if a != [] && b != [] && a[0] == b[0] {
      assert a == [a[0]] + a[1..] && b == [b[0]] + b[1..];
      CompareStrIsOrder(a[1..], b[1..]);
    }
  }

  lemma {:induction false} CompareStrIsTransitive(a: Str, b: Str, c: Str)
    requires CompareStr(a, b) == Less && CompareStr(b, c) == Less
    ensures CompareStr(a, c) == Less
  {
    if a != [] && b != [] && c != [] && a[0] == b[0] == c[0] {
      CompareStrIsTransitive(a[1..], b[1..], c[1..]);
    }
  }

  lemma CompareOptionIsOrder(a: Option<Str>, b: Option<Str>, c: Option<Str>)
    ensures CompareOption(a, b) == Equal <==> a == b
    ensures CompareOption(b, a) == CompareOption(a, b).Reverse()
    ensures CompareOption(a, b) == Less && CompareOption(b, c) == Less ==> CompareOption(a, c) == Less
  {
    if a.Some? && b.Some? {
      CompareStrIsOrder(a.value, b.value);
      if c.Some? && CompareOption(a, b) == Less && CompareOption(b, c) == Less {
        CompareStrIsTransitive(a.value, b.value, c.value);
      }
    }
  }

  /** Strings are ordered by their first difference, a prefix first. */
  lemma {:induction false} CompareStrIff(a: Str, b: Str)
    ensures CompareStr(a, b) == Less <==> exists i :: DiffersAt(a, b, i)
  {
    if a != [] && b != [] && a[0] == b[0] {
      CompareStrIff(a[1..], b[1..]);
      if i :| DiffersAt(a[1..], b[1..], i) {
        assert a[..i + 1] == [a[0]] + a[1..][..i] && b[..i + 1] == [b[0]] + b[1..][..i];
        assert DiffersAt(a, b, i + 1);
      }
      if i :| DiffersAt(a, b, i) {
        assert a[1..][..i - 1] == a[..i][1..] && b[1..][..i - 1] == b[..i][1..];
        assert DiffersAt(a[1..], b[1..], i - 1);
      }
    } else if b != [] && (a == [] || a[0] < b[0]) {
      assert DiffersAt(a, b, 0);
    } else if a != [] && b != [] {
      assert forall i :: DiffersAt(a, b, i) ==> i == 0 || a[..i][0] == b[..i][0];
    }
  }

  predicate DiffersAt(a: Str, b: Str, i: int) {
    0 <= i <= |a| && i < |b| && a[..i] == b[..i] && (i == |a| || a[i] < b[i])
  }

  /** Outputs that say something about themselves come first, by make, model and serial. */
  lemma CompareIff(a: OutputName, b: OutputName)
    ensures Compare(a, b) == Less <==>
      if a.HasDescription() && b.HasDescription() then
        || CompareOption(a.make, b.make) == Less
        || (a.make == b.make && CompareOption(a.model, b.model) == Less)
        || (a.make == b.make && a.model == b.model && CompareOption(a.serial, b.serial) == Less)
        || ((a.make, a.model, a.serial) == (b.make, b.model, b.serial) && CompareStr(a.connector, b.connector) == Less)
      else if !a.HasDescription() && !b.HasDescription() then CompareStr(a.connector, b.connector) == Less
      else a.HasDescription()
  {
    CompareOptionIsOrder(a.make, b.make, None);
    CompareOptionIsOrder(a.model, b.model, None);
    CompareOptionIsOrder(a.serial, b.serial, None);
  }

  /** A missing part comes first. */
  lemma MissingPartIsFirst(a: Option<Str>, b: Option<Str>)
    ensures CompareOption(a, b) == Less <==> b.Some? && (a.None? || CompareStr(a.value, b.value) == Less)
  {
  }

  /** `Compare` is a total order on names: antisymmetric, and equal only on equal names. */
  lemma CompareIsTotal(a: OutputName, b: OutputName)
    ensures Compare(a, b) == Equal <==> a == b
    ensures Compare(b, a) == Compare(a, b).Reverse()
  {
    CompareStrIsOrder(a.connector, b.connector);
    CompareOptionIsOrder(a.make, b.make, None);
    CompareOptionIsOrder(a.model, b.model, None);
    CompareOptionIsOrder(a.serial, b.serial, None);
  }

  lemma CompareIsTransitive(a: OutputName, b: OutputName, c: OutputName)
    requires Compare(a, b) == Less && Compare(b, c) == Less
    ensures Compare(a, c) == Less
  {
    if CompareStr(a.connector, b.connector) == Less && CompareStr(b.connector, c.connector) == Less {
      CompareStrIsTransitive(a.connector, b.connector, c.connector);
    }
    CompareOptionIsOrder(a.make, b.make, c.make);
    CompareOptionIsOrder(a.model, b.model, c.model);
    CompareOptionIsOrder(a.serial, b.serial, c.serial);
    CompareOptionIsOrder(b.make, c.make, None);
    CompareOptionIsOrder(b.model, c.model, None);
    CompareOptionIsOrder(b.serial, c.serial, None);
  }
}
