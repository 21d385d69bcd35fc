/** Which texts are browser versions (chromiumoxide_fetcher/src/version), written as a grammar. */
module VersionTexts {
  import opened Options
  import opened Decimals
  import opened BrowserVersions

  // ---------- Numbers ----------

  function Zeros(k: nat): string {
    seq(k, i => '0')
  }

  /** The decimal form of the number, with any number of zeros and at most one plus sign before it. */
  predicate Writes(s: string, n: nat) {
    exists k: nat | k <= |s| :: s == Zeros(k) + Decimals.Print(n) || s == "+" + (Zeros(k) + Decimals.Print(n))
  }

  lemma {:induction false} DigitsWrite(s: string) returns (k: nat)
    requires s != "" && AllDigits(s)
    ensures k <= |s| && s == Zeros(k) + Decimals.Print(Value(s))
  {
    var first, last := s[..|s| - 1], s[|s| - 1];
    assert s == first + [last];
    if first == "" {
      k := 0;
    } else {
      k := DigitsWrite(first);
      DigitAdded(Value(first), last);
      hide Decimals.Print, Zeros;
      if Value(first) == 0 {
        assert Zeros(k + 1) == Zeros(k) + "0" by { ZerosOneMore(k); }
        k := k + 1;
      } else {
        assert Zeros(k) + Decimals.Print(Value(first)) + [last] == Zeros(k) + (Decimals.Print(Value(first)) + [last]);
      }
    }
  }

  lemma ZerosOneMore(k: nat)
    ensures Zeros(k + 1) == Zeros(k) + "0"
  {
  }

  /** Only a zero is no longer there when a digit follows it. */
  lemma DigitAdded(n: nat, digit: char)
    requires IsDigit(digit)
    ensures Decimals.Print(10 * n + (digit - '0') as nat) == if n == 0 then [digit] else Decimals.Print(n) + [digit]
    ensures Decimals.Print(0) == "0"
  {
  }

  lemma {:induction false} ZerosAddNothing(k: nat, s: string)
    requires s != "" && AllDigits(s)
    ensures AllDigits(Zeros(k) + s) && Value(Zeros(k) + s) == Value(s)
    decreases |s|, k
  {
    var t := Zeros(k) + s;
    assert t[..|t| - 1] == Zeros(k) + s[..|s| - 1];
    if |s| > 1 {
      ZerosAddNothing(k, s[..|s| - 1]);
    } else {
      assert t[..|t| - 1] == Zeros(k);
      ZerosAreZero(k);
    }
  }

  lemma {:induction false} ZerosAreZero(k: nat)
    ensures AllDigits(Zeros(k)) && Value(Zeros(k)) == 0
  {
    if k > 0 {
      assert Zeros(k)[..k - 1] == Zeros(k - 1);
      ZerosAreZero(k - 1);
    }
  }

  /** A text is read as a number exactly when it is the decimal form of it, up to leading zeros and a plus sign. */
  lemma ReadExactlyWhen(s: string, n: u32)
    ensures Decimals.Parse(s) == Some(n) <==> Writes(s, n)
  {
    if Decimals.Parse(s) == Some(n) {
      var digits := if |s| > 1 && s[0] == '+' then s[1..] else s;
      var k := DigitsWrite(digits);
      assert s == digits || s == "+" + digits;
    }
    if Writes(s, n) {
      var k: nat :| k <= |s| && (s == Zeros(k) + Decimals.Print(n) || s == "+" + (Zeros(k) + Decimals.Print(n)));
      var digits := Zeros(k) + Decimals.Print(n);
      PrintsItsValue(n);
      ZerosAddNothing(k, Decimals.Print(n));
      hide Zeros, Decimals.Print, Value;
      assert digits != "" && IsDigit(digits[0]);
      assert ("+" + digits)[1..] == digits;
    }
  }

  // ---------- Versions ----------

  /** Parts of numbers with dots between them. */
  predicate Spells(s: string, parts: seq<string>, v: Version) {
    && |parts| == (if v.patch.Some? then 4 else 3)
    && s == parts[0] + "." + parts[1] + "." + parts[2] + (if v.patch.Some? then "." + parts[3] else "")
    && Writes(parts[0], v.major) && Writes(parts[1], v.minor) && Writes(parts[2], v.build)
    && (v.patch.Some? ==> Writes(parts[3], v.patch.value))
  }

  function Join(parts: seq<string>, separator: char): string
    requires parts != []
  {
    if |parts| == 1 then parts[0] else parts[0] + [separator] + Join(parts[1..], separator)
  }

  lemma {:induction false} JoinSplit(s: string, separator: char)
    ensures Join(Split(s, separator), separator) == s
  {
    if s != "" {
      var rest := Split(s[1..], separator);
      JoinSplit(s[1..], separator);
      assert [s[0]] + s[1..] == s;
      if s[0] != separator {
        assert Split(s, separator)[1..] == rest[1..];
        if |rest| > 1 {
          assert [s[0]] + rest[0] + [separator] + Join(rest[1..], separator)
              == [s[0]] + (rest[0] + [separator] + Join(rest[1..], separator));
        }
      } else {
        assert Split(s, separator)[1..] == rest;
        assert "" + [separator] + s[1..] == [separator] + s[1..];
      }
    }
  }

  lemma JoinedThree(parts: seq<string>)
    requires |parts| == 3
    ensures Join(parts, '.') == parts[0] + "." + parts[1] + "." + parts[2]
  {
    assert Join(parts[1..], '.') == parts[1] + "." + parts[2];
    assert parts[0] + "." + (parts[1] + "." + parts[2]) == parts[0] + "." + parts[1] + "." + parts[2];
  }

  lemma JoinedFour(parts: seq<string>)
    requires |parts| == 4
    ensures Join(parts, '.') == parts[0] + "." + parts[1] + "." + parts[2] + ("." + parts[3])
  {
    JoinedThree(parts[1..]);
    hide Join;
    assert Join(parts, '.') == parts[0] + ['.'] + Join(parts[1..], '.') by { Unjoin(parts); }
    assert parts[0] + "." + (parts[1] + "." + parts[2] + "." + parts[3])
        == parts[0] + "." + parts[1] + "." + parts[2] + ("." + parts[3]);
  }

  lemma Unjoin(parts: seq<string>)
    requires |parts| > 1
    ensures Join(parts, '.') == parts[0] + ['.'] + Join(parts[1..], '.')
  {
  }

  lemma PartsOf(s: string)
    ensures var parts := Split(s, '.');
            && (|parts| == 3 ==> s == parts[0] + "." + parts[1] + "." + parts[2] + "")
            && (|parts| == 4 ==> s == parts[0] + "." + parts[1] + "." + parts[2] + ("." + parts[3]))
  {
    var parts := Split(s, '.');
    JoinSplit(s, '.');
    hide Split, Join;
    if |parts| == 3 {
      JoinedThree(parts);
      assert s + "" == s;
    } else if |parts| == 4 {
      JoinedFour(parts);
    }
  }

  lemma NumbersHaveNoDots(s: string, n: u32)
    requires Writes(s, n)
    ensures '.' !in s
  {
    ReadExactlyWhen(s, n);
    NumbersStartSo(s);
  }

  /** A text is read as a version exactly when it is three or four numbers with dots between them. */
  lemma VersionExactlyWhen(s: string, v: Version)
    ensures ParseVersion(s) == Result.Ok(v) <==> exists parts: seq<string> :: Spells(s, parts, v)
  {
    if ParseVersion(s) == Result.Ok(v) {
      VersionIsSpelled(s, v);
    }
    if parts: seq<string> :| Spells(s, parts, v) {
      SpelledIsVersion(s, parts, v);
    }
  }

  lemma VersionIsSpelled(s: string, v: Version)
    requires ParseVersion(s) == Result.Ok(v)
    ensures Spells(s, Split(s, '.'), v)
  {
    var parts := Split(s, '.');
    PartsOf(s);
    hide Split, Decimals.Parse, Writes;
    ReadExactlyWhen(parts[0], v.major);
    ReadExactlyWhen(parts[1], v.minor);
    ReadExactlyWhen(parts[2], v.build);
    if |parts| == 4 {
      ReadExactlyWhen(parts[3], v.patch.value);
    }
  }

  lemma SpelledIsVersion(s: string, parts: seq<string>, v: Version)
    requires Spells(s, parts, v)
    ensures ParseVersion(s) == Result.Ok(v)
  {
    hide Split, Decimals.Parse, Writes;
    ReadExactlyWhen(parts[0], v.major);
    ReadExactlyWhen(parts[1], v.minor);
    ReadExactlyWhen(parts[2], v.build);
    NumbersHaveNoDots(parts[0], v.major);
    NumbersHaveNoDots(parts[1], v.minor);
    NumbersHaveNoDots(parts[2], v.build);
    if v.patch.Some? {
      ReadExactlyWhen(parts[3], v.patch.value);
      NumbersHaveNoDots(parts[3], v.patch.value);
      FourPartsSplit(parts[0], parts[1], parts[2], parts[3]);
    } else {
      ThreePartsSplit(parts[0], parts[1], parts[2]);
      assert s == parts[0] + "." + parts[1] + "." + parts[2];
    }
  }

  // ---------- All four syntaxes ----------

  predicate Names(s: string, channel: Channel) {
    match channel
    case Canary => s == "canary" || s == "Canary"
    case Dev => s == "dev" || s == "Dev"
    case Beta => s == "beta" || s == "Beta"
    case Stable => s == "stable" || s == "Stable"
  }

  lemma ChannelExactlyWhen(s: string, channel: Channel)
    ensures ParseChannel(s) == Result.Ok(channel) <==> Names(s, channel)
  {
  }

  /** The grammar of browser versions. */
  ghost predicate Denotes(s: string, v: BrowserVersion) {
    match v
    case OfRevision(revision) => Writes(s, revision.number) && revision.number >= 1000000
    case OfMilestone(milestone) => Writes(s, milestone.number) && milestone.number < 1000000
    case OfChannel(channel) => Names(s, channel)
    case OfVersion(version) => exists parts: seq<string> :: Spells(s, parts, version)
  }

  /** A text is read as a browser version exactly when the grammar says so, and any other text is refused whole. */
  lemma AcceptedExactlyWhen(s: string, v: BrowserVersion)
    ensures ParseBrowserVersion(s) == Result.Ok(v) <==> Denotes(s, v)
    ensures ParseBrowserVersion(s).Err? ==> ParseBrowserVersion(s).error == InvalidVersion(s)
  {
    SyntaxesAreDisjoint(s);
    hide Decimals.Parse, ParseVersion, ParseChannel, Writes, Spells, Names;
    match v
    case OfRevision(revision) => ReadExactlyWhen(s, revision.number);
    case OfChannel(channel) => ChannelExactlyWhen(s, channel);
    case OfVersion(version) => VersionExactlyWhen(s, version);
    case OfMilestone(milestone) => ReadExactlyWhen(s, milestone.number);
  }
}
