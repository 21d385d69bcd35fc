/** Decimal numbers of 32 bits as text, as the standard formatter writes them and the standard parser reads them. */
module Decimals {
  import opened Options

  type u32 = n: nat | n < 0x1_0000_0000

  predicate IsDigit(c: char) {
    '0' <= c <= '9'
  }

  function Digit(n: nat): char
    requires n < 10
  {
    '0' + n as char
  }

  function Print(n: nat): string {
    if n < 10 then [Digit(n)] else Print(n / 10) + [Digit(n % 10)]
  }

  predicate AllDigits(s: string) {
    forall i | 0 <= i < |s| :: IsDigit(s[i])
  }

  function Value(s: string): nat
    requires AllDigits(s)
  {
    if s == "" then 0 else 10 * Value(s[..|s| - 1]) + (s[|s| - 1] - '0') as nat
  }

  /** Reads digits after an optional plus sign. What does not fit into 32 bits is refused. */
  function Parse(s: string): Option<u32> {
    var digits := if |s| > 1 && s[0] == '+' then s[1..] else s;
    if digits == "" || !AllDigits(digits) || Value(digits) >= 0x1_0000_0000 then None else Some(Value(digits))
  }

  lemma {:induction false} PrintsItsValue(n: nat)
    ensures Print(n) != "" && AllDigits(Print(n)) && Value(Print(n)) == n
  {
    if n >= 10 {
      PrintsItsValue(n / 10);
      var s := Print(n);
      assert s[..|s| - 1] == Print(n / 10);
    } else {
      assert [Digit(n)][..0] == "";
    }
  }

  lemma RoundTrip(n: u32)
    ensures Parse(Print(n)) == Some(n)
  {
    PrintsItsValue(n);
  }

  /** The first character of what reads as a number. */
  lemma NumbersStartSo(s: string)
    requires Parse(s).Some?
    ensures s != "" && (IsDigit(s[0]) || s[0] == '+') && '.' !in s
  {
    var digits := if |s| > 1 && s[0] == '+' then s[1..] else s;
    assert forall c | c in digits :: IsDigit(c);
    assert s == digits || s == ['+'] + digits;
  }
}

/** Browser versions in their four syntaxes (chromiumoxide_fetcher/src/version). */
module BrowserVersions {
  import opened Options
  import opened Decimals

  datatype VersionError =
    | InvalidRevision(text: string)
    | InvalidChannel(text: string)
    | InvalidBuild(text: string)
    | InvalidMilestone(text: string)
    | InvalidVersion(text: string)

  datatype Result<T> = Ok(value: T) | Err(error: VersionError)

  datatype Channel = Canary | Dev | Beta | Stable {
    function Print(): string {
      match this
      case Canary => "canary"
      case Dev => "dev"
      case Beta => "beta"
      case Stable => "stable"
    }
  }

  function ParseChannel(s: string): Result<Channel> {
    if s == "canary" || s == "Canary" then Ok(Canary)
    else if s == "dev" || s == "Dev" then Ok(Dev)
    else if s == "beta" || s == "Beta" then Ok(Beta)
    else if s == "stable" || s == "Stable" then Ok(Stable)
    else Err(InvalidChannel(s))
  }

  datatype Revision = Revision(number: u32)

  /** Smaller numbers are taken for milestones. */
  const FIRST_REVISION: nat := 1000000

  function ParseRevision(s: string): Result<Revision> {
    match Decimals.Parse(s)
    case None => Err(InvalidRevision(s))
    case Some(n) => if n < FIRST_REVISION then Err(InvalidRevision(s)) else Ok(Revision(n))
  }

  datatype Milestone = Milestone(number: u32)

  function ParseMilestone(s: string): Result<Milestone> {
    match Decimals.Parse(s)
    case None => Err(InvalidMilestone(s))
    case Some(n) => Ok(Milestone(n))
  }

  datatype Version = Version(major: u32, minor: u32, build: u32, patch: Option<u32>) {
    function Print(): string {
      Decimals.Print(major) + "." + Decimals.Print(minor) + "." + Decimals.Print(build) +
      if patch.Some? then "." + Decimals.Print(patch.value) else ""
    }
  }

  /** The parts between separators. There is always at least one. */
  function Split(s: string, separator: char): (parts: seq<string>)
    ensures parts != []
  {
    if s == "" then [""]
    else if s[0] == separator then [""] + Split(s[1..], separator)
    else
      var rest := Split(s[1..], separator);
      [[s[0]] + rest[0]] + rest[1..]
  }

  function ParseVersion(s: string): Result<Version> {
    var parts := Split(s, '.');
    if |parts| < 3 || |parts| > 4 then Err(InvalidBuild(s))
    else
      var major, minor, build := Decimals.Parse(parts[0]), Decimals.Parse(parts[1]), Decimals.Parse(parts[2]);
      if major.None? || minor.None? || build.None? then Err(InvalidBuild(s))
      else if |parts| == 4 then
        var patch := Decimals.Parse(parts[3]);
        if patch.None? then Err(InvalidBuild(s)) else Ok(Version(major.value, minor.value, build.value, patch))
      else Ok(Version(major.value, minor.value, build.value, None))
  }

  datatype BrowserVersion =
    | OfRevision(revision: Revision)
    | OfChannel(channel: Channel)
    | OfVersion(version: Version)
    | OfMilestone(milestone: Milestone)
  {
    function Print(): string {
      match this
      case OfRevision(revision) => Decimals.Print(revision.number)
      case OfChannel(channel) => channel.Print()
      case OfVersion(version) => version.Print()
      case OfMilestone(milestone) => Decimals.Print(milestone.number)
    }
  }

  /** The ordered choice between the four syntaxes. */
  function ParseBrowserVersion(s: string): Result<BrowserVersion> {
    if ParseRevision(s).Ok? then Ok(OfRevision(ParseRevision(s).value))
    else if ParseChannel(s).Ok? then Ok(OfChannel(ParseChannel(s).value))
    else if ParseVersion(s).Ok? then Ok(OfVersion(ParseVersion(s).value))
    else if ParseMilestone(s).Ok? then Ok(OfMilestone(ParseMilestone(s).value))
    else Err(InvalidVersion(s))
  }

  // ---------- Splitting ----------

  lemma {:induction false} SplitPlain(s: string, separator: char)
    requires separator !in s
    ensures Split(s, separator) == [s]
  {
    if s != "" {
      SplitPlain(s[1..], separator);
      assert [s[0]] + s[1..] == s;
    }
  }

  lemma {:induction false} SplitJoined(a: string, b: string, separator: char)
    requires separator !in a
    ensures Split(a + [separator] + b, separator) == [a] + Split(b, separator)
  {
    var s := a + [separator] + b;
    if a == "" {
      assert s[1..] == b;
    } else {
      assert s[1..] == a[1..] + [separator] + b;
      SplitJoined(a[1..], b, separator);
      assert [a[0]] + a[1..] == a;
    }
  }

  lemma {:induction false} SplitHasSeparators(s: string, separator: char)
    requires |Split(s, separator)| > 1
    ensures separator in s
  {
    if s != "" && s[0] != separator {
      SplitHasSeparators(s[1..], separator);
    }
  }

  // ---------- Which syntax a text has ----------

  /** No text has two of the syntaxes, except that every revision is also a milestone: only that order matters. */
  lemma SyntaxesAreDisjoint(s: string)
    ensures !(ParseChannel(s).Ok? && Decimals.Parse(s).Some?)
    ensures !(ParseVersion(s).Ok? && Decimals.Parse(s).Some?)
    ensures !(ParseVersion(s).Ok? && ParseChannel(s).Ok?)
    ensures ParseRevision(s).Ok? ==> ParseMilestone(s).Ok?
  {
    if Decimals.Parse(s).Some? {
      NumbersStartSo(s);
    }
    if ParseVersion(s).Ok? {
      SplitHasSeparators(s, '.');
    }
    if ParseChannel(s).Ok? {
      ChannelsAreWords(s);
    }
  }

  lemma ChannelsAreWords(s: string)
    requires ParseChannel(s).Ok?
    ensures s != "" && '.' !in s && !IsDigit(s[0]) && s[0] != '+'
  {
  }

  // ---------- Round trips ----------

  lemma PrintedNumberIsPlain(n: nat)
    ensures '.' !in Decimals.Print(n)
  {
    PrintsItsValue(n);
  }

  lemma VersionRoundTrip(v: Version)
    ensures ParseVersion(v.Print()) == Ok(v)
  {
    var a, b, c := Decimals.Print(v.major), Decimals.Print(v.minor), Decimals.Print(v.build);
    PrintedNumberIsPlain(v.major);
    PrintedNumberIsPlain(v.minor);
    PrintedNumberIsPlain(v.build);
    RoundTrip(v.major);
    RoundTrip(v.minor);
    RoundTrip(v.build);
    hide Decimals.Print, Decimals.Parse, Split;
    ThreePartsSplit(a, b, c);
    if v.patch.Some? {
      var d := Decimals.Print(v.patch.value);
      PrintedNumberIsPlain(v.patch.value);
      RoundTrip(v.patch.value);
      FourPartsSplit(a, b, c, d);
    } else {
      assert v.Print() == a + "." + b + "." + c;
    }
  }

  lemma ThreePartsSplit(a: string, b: string, c: string)
    requires '.' !in a && '.' !in b && '.' !in c
    ensures Split(a + "." + b + "." + c, '.') == [a, b, c]
  {
    hide Split;
    assert a + "." + b + "." + c == a + ['.'] + (b + ['.'] + c);
    SplitJoined(a, b + ['.'] + c, '.');
    SplitJoined(b, c, '.');
    SplitPlain(c, '.');
  }

  lemma FourPartsSplit(a: string, b: string, c: string, d: string)
    requires '.' !in a && '.' !in b && '.' !in c && '.' !in d
    ensures Split(a + "." + b + "." + c + ("." + d), '.') == [a, b, c, d]
  {
    hide Split;
    assert a + "." + b + "." + c + ("." + d) == a + ['.'] + (b + ['.'] + (c + ['.'] + d));
    SplitJoined(a, b + ['.'] + (c + ['.'] + d), '.');
    SplitJoined(b, c + ['.'] + d, '.');
    SplitJoined(c, d, '.');
    SplitPlain(d, '.');
  }

  /** The parts of a version are read in their order. */
  lemma PartsAreRead(major: u32, minor: u32, build: u32, patch: u32)
    ensures var text := Decimals.Print(major) + "." + Decimals.Print(minor) + "." + Decimals.Print(build);
            && ParseVersion(text) == Ok(Version(major, minor, build, None))
            && ParseVersion(text + ("." + Decimals.Print(patch))) == Ok(Version(major, minor, build, Some(patch)))
  {
    VersionRoundTrip(Version(major, minor, build, None));
    VersionRoundTrip(Version(major, minor, build, Some(patch)));
    hide Decimals.Print, ParseVersion;
    var text := Decimals.Print(major) + "." + Decimals.Print(minor) + "." + Decimals.Print(build);
    assert text + "" == text;
  }

  /** Printing and parsing gives back the same version exactly unless it is a revision that is too small, or a milestone
    * that is too big: those two come back as each other. */
  lemma RoundTripExactlyWhen(v: BrowserVersion)
    ensures ParseBrowserVersion(v.Print()) == Ok(v) <==>
            match v
            case OfRevision(revision) => revision.number >= 1000000
            case OfMilestone(milestone) => milestone.number < 1000000
            case _ => true
    ensures v.OfRevision? && v.revision.number < 1000000 ==>
            ParseBrowserVersion(v.Print()) == Ok(OfMilestone(Milestone(v.revision.number)))
    ensures v.OfMilestone? && v.milestone.number >= 1000000 ==>
            ParseBrowserVersion(v.Print()) == Ok(OfRevision(Revision(v.milestone.number)))
  {
    SyntaxesAreDisjoint(v.Print());
    hide Decimals.Print, Decimals.Parse, ParseVersion, ParseChannel, Version.Print;
    match v
    case OfRevision(revision) => RoundTrip(revision.number);
    case OfChannel(channel) => ChannelRoundTrip(channel);
    case OfVersion(version) => VersionRoundTrip(version);
    case OfMilestone(milestone) => RoundTrip(milestone.number);
  }

  lemma ChannelRoundTrip(channel: Channel)
    ensures ParseChannel(channel.Print()) == Ok(channel)
  {
  }

  /** Whatever text is accepted, printing what it was read as gives a text that is read as the same again. */
  lemma PrintingNormalises(s: string)
    requires ParseBrowserVersion(s).Ok?
    ensures ParseBrowserVersion(ParseBrowserVersion(s).value.Print()) == ParseBrowserVersion(s)
  {
    RoundTripExactlyWhen(ParseBrowserVersion(s).value);
  }
}
