/** What the lines of a protocol file declare beside the layout of elements and sections, and when a protocol says it:
  * every redirect, every version, every comment, and parameters outside of elements. */
module PdlContents {
  import opened Options
  import opened Sequences
  import opened Pdl
  import opened PdlParserSpec
  import opened PdlGrouping
  import Agreement = PdlAgreement

  /** All that is declared. A protocol has room for one redirect per command and for one version. */
  datatype Contents = Contents(
    protocol: Protocol,
    redirects: seq<Redirect>,
    headings: seq<Option<string>>,
    majors: seq<nat>,
    minors: seq<nat>,
    // parameters before the first element of their domain
    orphans: seq<Line>,
    // comments that no line took
    trailing: Option<string>)

  // ---------- What lines declare ----------

  predicate IsRedirect(line: Line) { line.RedirectLine? }
  predicate IsVersion(line: Line) { line.VersionLine? }
  predicate IsMajor(line: Line) { line.MajorLine? }
  predicate IsMinor(line: Line) { line.MinorLine? }

  /** The lines of one kind, in order. */
  function Picked(lines: Lines, kind: Line -> bool): (r: Lines)
    ensures forall d | d in r :: kind(d.line)
  {
    if lines == [] then [] else Picked(Front(lines), kind) + if kind(Last(lines).line) then [Last(lines)] else []
  }

  function Redirects(lines: Lines): (r: seq<Redirect>) {
    var p := Picked(lines, IsRedirect);
    seq(|p|, i requires 0 <= i < |p| => Redirect(p[i].description, (assert p[i] in p; p[i].line.domain), None))
  }

  function Headings(lines: Lines): (r: seq<Option<string>>) {
    var p := Picked(lines, IsVersion);
    seq(|p|, i requires 0 <= i < |p| => p[i].description)
  }

  /** A version without such a line has the number zero. */
  function Majors(lines: Lines): (r: seq<nat>) {
    var p := Picked(lines, IsMajor);
    if p == [] then [0] else seq(|p|, i requires 0 <= i < |p| => (assert p[i] in p; p[i].line.number))
  }

  function Minors(lines: Lines): (r: seq<nat>) {
    var p := Picked(lines, IsMinor);
    if p == [] then [0] else seq(|p|, i requires 0 <= i < |p| => (assert p[i] in p; p[i].line.number))
  }

  /** The last domain of these lines has an element. */
  predicate UnderElement(lines: seq<Line>) {
    lines != [] && !Last(lines).DomainLine? &&
    (Last(lines).TypeLine? || Last(lines).CommandLine? || Last(lines).EventLine? || UnderElement(Front(lines)))
  }

  function Orphans(lines: seq<Line>): seq<Line> {
    if lines == [] then []
    else Orphans(Front(lines)) + if Last(lines).ParamLine? && !UnderElement(Front(lines)) then [Last(lines)] else []
  }

  function Declares(lines: seq<Line>): Option<Contents> {
    var d := Describe(lines);
    match Grouped(lines, Declared)
    case None => None
    case Some(protocol) =>
      Some(Contents(protocol, Redirects(d), Headings(d), Majors(d), Minors(d), Orphans(lines), PendingAfter(lines)))
  }

  // ---------- What a protocol says ----------

  function CommandRedirects(commands: seq<Command>): seq<Redirect> {
    if commands == [] then []
    else CommandRedirects(Front(commands)) + if Last(commands).redirect.Some? then [Last(commands).redirect.value] else []
  }

  function DomainRedirects(domains: seq<Domain>): seq<Redirect> {
    if domains == [] then [] else DomainRedirects(Front(domains)) + CommandRedirects(Last(domains).commands)
  }

  function ContentsOf(p: Protocol): Contents {
    Contents(p, DomainRedirects(p.domains), [p.description], [p.version.major], [p.version.minor], [], None)
  }

  // ---------- Counting lines ----------

  /** At most one line is of this kind. */
  predicate Once(lines: seq<Line>, kind: Line -> bool) {
    forall i, j | 0 <= i < j < |lines| :: !(kind(lines[i]) && kind(lines[j]))
  }

  predicate Never(lines: seq<Line>, kind: Line -> bool) {
    forall i | 0 <= i < |lines| :: !kind(lines[i])
  }

  lemma OnceOneMore(lines: seq<Line>, kind: Line -> bool)
    requires lines != []
    ensures Never(lines, kind) <==> Never(Front(lines), kind) && !kind(Last(lines))
    ensures Once(lines, kind) <==> Once(Front(lines), kind) && (kind(Last(lines)) ==> Never(Front(lines), kind))
  {
    var front, last := Front(lines), |lines| - 1;
    assert forall i | 0 <= i < last :: front[i] == lines[i];
    if Once(lines, kind) && kind(Last(lines)) {
      assert forall i | 0 <= i < last :: !(kind(lines[i]) && kind(lines[last]));
    }
  }

  lemma {:induction false} PickedExactlyWhen(lines: seq<Line>, kind: Line -> bool)
    ensures Picked(Describe(lines), kind) == [] <==> Never(lines, kind)
    ensures |Picked(Describe(lines), kind)| <= 1 <==> Once(lines, kind)
  {
    if lines != [] {
      PickedExactlyWhen(Front(lines), kind);
      OnceOneMore(lines, kind);
      DescribeOneMore(lines);
      hide Describe, Picked, Once, Never;
      PickedOneMore(Describe(Front(lines)), Last(Describe(lines)), kind);
    }
  }

  lemma PickedOneMore(lines: Lines, d: Described, kind: Line -> bool)
    ensures Picked(lines + [d], kind) == Picked(lines, kind) + if kind(d.line) then [d] else []
  {
    assert Front(lines + [d]) == lines;
  }

  lemma DescribeOneMore(lines: seq<Line>)
    requires lines != []
    ensures var d := Last(Describe(lines));
            && Describe(lines) == Describe(Front(lines)) + [d] && d.line == Last(lines)
            && (Takes(d.line) ==> d.description == PendingAfter(Front(lines)))
  {
  }

  // ---------- The pending comments ----------

  lemma RunBefore(lines: seq<Line>)
    requires lines != [] && Run(lines).Ok?
    ensures Run(Front(lines)).Ok? && Run(lines) == Step(Run(Front(lines)).value, Last(lines), |lines|)
  {
    hide Step;
  }

  lemma {:induction false} PendingInRun(lines: seq<Line>)
    requires Run(lines).Ok?
    ensures Run(lines).value.pending == PendingAfter(lines)
  {
    if lines != [] {
      RunBefore(lines);
      hide Run, Step;
      PendingInRun(Front(lines));
      Agreement.StepKeepsPending(Run(Front(lines)).value, lines, |lines|);
    } else {
      NothingRun();
    }
  }

  lemma NothingRun()
    ensures Run([]) == Ok(NEW_PARSER)
  {
  }

  /** Every comment is followed by a line that takes it. */
  predicate CommentsTaken(lines: seq<Line>) {
    forall i | 0 <= i < |lines| && lines[i].Comment? :: TakenLater(lines, i)
  }

  predicate TakenLater(lines: seq<Line>, i: nat) {
    exists j | i < j < |lines| :: Takes(lines[j])
  }

  lemma {:induction false} NothingPendingExactlyWhen(lines: seq<Line>)
    ensures PendingAfter(lines) == None <==> CommentsTaken(lines)
  {
    if lines != [] {
      var front := Front(lines);
      NothingPendingExactlyWhen(front);
      PendingOneMore(lines);
      hide PendingAfter;
      if Takes(Last(lines)) {
        forall i | 0 <= i < |lines| && lines[i].Comment?
          ensures TakenLater(lines, i)
        {
          assert Takes(lines[|front|]);
        }
      } else {
        forall i | 0 <= i < |front|
          ensures TakenLater(lines, i) <==> TakenLater(front, i)
        {
          if TakenLater(lines, i) {
            var j :| i < j < |lines| && Takes(lines[j]);
            assert Takes(front[j]);
          }
          if TakenLater(front, i) {
            var j :| i < j < |front| && Takes(front[j]);
            assert Takes(lines[j]);
          }
        }
        assert !TakenLater(lines, |front|);
        hide TakenLater;
        assert forall i | 0 <= i < |front| :: lines[i] == front[i];
        assert lines[|front|] == Last(lines);
      }
    }
  }

  // ---------- Redirects ----------

  /** The last element of these lines has a redirect line. */
  predicate HasRedirect(lines: seq<Line>) {
    lines != [] &&
    match Last(lines)
    case RedirectLine(_) => true
    case DomainLine(_, _) => false
    case TypeLine(_, _, _, _) => false
    case CommandLine(_, _) => false
    case EventLine(_, _) => false
    case _ => HasRedirect(Front(lines))
  }

  /** No element has two redirect lines. */
  predicate RedirectsNotRepeated(lines: seq<Line>) {
    forall i | 0 <= i < |lines| && lines[i].RedirectLine? :: !HasRedirect(lines[..i])
  }

  function OpenRedirect(e: Option<Element>): seq<Redirect> {
    if e.Some? && e.value.CommandElement? && e.value.command.redirect.Some? then [e.value.command.redirect.value] else []
  }

  /** The redirects that the parser holds. */
  function HeldRedirects(s: Parser): seq<Redirect> {
    DomainRedirects(s.domains) + OpenRedirect(s.element)
  }

  lemma DomainsOneMore(domains: seq<Domain>, d: Domain)
    ensures DomainRedirects(domains + [d]) == DomainRedirects(domains) + CommandRedirects(d.commands)
  {
    assert Front(domains + [d]) == domains;
  }

  lemma ConsumedRedirects(d: Domain, e: Element)
    ensures CommandRedirects(Consumed(d, e).commands) == CommandRedirects(d.commands) + OpenRedirect(Some(e))
  {
    match e
    case CommandElement(c) =>
      assert Front(d.commands + [c]) == d.commands;
    case _ =>
  }

  lemma MemberKeepsRedirect(e: Element, m: Member)
    requires AddMember(e, m).Ok?
    ensures OpenRedirect(Some(AddMember(e, m).value)) == OpenRedirect(Some(e))
  {
  }

  lemma CloseKeepsRedirects(s: Parser)
    requires Close(s).Ok?
    ensures HeldRedirects(Close(s).value) == HeldRedirects(s)
    ensures s.domains != [] ==> Close(s).value.domains != [] && Close(s).value.element.None?
    ensures s.domains == [] ==> Close(s).value == s
    ensures Close(s).value.pending == s.pending && Close(s).value.version == s.version
    ensures Close(s).value.description == s.description
  {
    if s.domains != [] && s.element.Some? {
      hide AddMember, Consumed, DomainRedirects;
      var e := if s.member.Some? then AddMember(s.element.value, s.member.value).value else s.element.value;
      if s.member.Some? {
        MemberKeepsRedirect(s.element.value, s.member.value);
      }
      assert s.domains == Front(s.domains) + [Last(s.domains)];
      DomainsOneMore(Front(s.domains), Last(s.domains));
      DomainsOneMore(Front(s.domains), Consumed(Last(s.domains), e));
      ConsumedRedirects(Last(s.domains), e);
    }
  }

  /** What a line does to the redirects. */
  predicate RedirectsAfter(s: Parser, line: Line, s': Parser) {
    && (s'.domains == [] ==> s'.element.None?)
    && if line.RedirectLine? then
         HeldRedirects(s') == DomainRedirects(s.domains) + [Redirect(s.pending, line.domain, None)] && OpenRedirect(s'.element) != []
       else if line.DomainLine? || line.TypeLine? || line.CommandLine? || line.EventLine? then
         HeldRedirects(s') == HeldRedirects(s) && OpenRedirect(s'.element) == []
       else HeldRedirects(s') == HeldRedirects(s) && OpenRedirect(s'.element) == OpenRedirect(s.element)
  }

  lemma StepRedirects(s: Parser, line: Line, n: nat)
    requires Step(s, line, n).Ok? && (s.domains == [] ==> s.element.None?)
    ensures RedirectsAfter(s, line, Step(s, line, n).value)
  {
    match line
    case DomainLine(_, _) => DomainRedirectsAfter(s, line, n);
    case DependsLine(_) => DependsRedirectsAfter(s, line, n);
    case TypeLine(_, _, _, _) => ElementRedirectsAfter(s, line, n);
    case CommandLine(_, _) => ElementRedirectsAfter(s, line, n);
    case EventLine(_, _) => ElementRedirectsAfter(s, line, n);
    case SectionLine(_) => SectionRedirectsAfter(s, line, n);
    case _ =>
      hide DomainRedirects, NewType, AddMember, Consumed;
  }

  lemma DomainRedirectsAfter(s: Parser, line: Line, n: nat)
    requires line.DomainLine? && Step(s, line, n).Ok? && (s.domains == [] ==> s.element.None?)
    ensures RedirectsAfter(s, line, Step(s, line, n).value)
  {
    hide Close, DomainRedirects;
    CloseKeepsRedirects(s);
    var s1 := Close(s).value;
    DomainsOneMore(s1.domains, Domain(s1.pending, line.flags, line.name, [], [], [], []));
  }

  lemma ElementRedirectsAfter(s: Parser, line: Line, n: nat)
    requires (line.TypeLine? || line.CommandLine? || line.EventLine?) && Step(s, line, n).Ok?
    ensures RedirectsAfter(s, line, Step(s, line, n).value)
  {
    hide Close, DomainRedirects, NewType;
    CloseKeepsRedirects(s);
  }

  lemma DependsRedirectsAfter(s: Parser, line: Line, n: nat)
    requires line.DependsLine? && Step(s, line, n).Ok?
    ensures RedirectsAfter(s, line, Step(s, line, n).value)
  {
    hide DomainRedirects;
    var front, d := Front(s.domains), Last(s.domains);
    assert s.domains == front + [d];
    DomainsOneMore(front, d);
    DomainsOneMore(front, d.(dependencies := d.dependencies + [line.domain]));
  }

  lemma SectionRedirectsAfter(s: Parser, line: Line, n: nat)
    requires line.SectionLine? && Step(s, line, n).Ok? && (s.domains == [] ==> s.element.None?)
    ensures RedirectsAfter(s, line, Step(s, line, n).value)
  {
    hide DomainRedirects, AddMember;
    if s.member.Some? {
      MemberKeepsRedirect(s.element.value, s.member.value);
    }
  }

  lemma RedirectsOneMore(lines: Lines, d: Described)
    ensures Redirects(lines + [d]) ==
            Redirects(lines) + if d.line.RedirectLine? then [Redirect(d.description, d.line.domain, None)] else []
  {
    hide Picked;
    PickedOneMore(lines, d, IsRedirect);
  }

  lemma NotRepeatedOneMore(lines: seq<Line>)
    requires lines != []
    ensures RedirectsNotRepeated(lines) <==>
            RedirectsNotRepeated(Front(lines)) && !(Last(lines).RedirectLine? && HasRedirect(Front(lines)))
  {
    hide HasRedirect;
    var front := Front(lines);
    assert forall i | 0 <= i < |front| :: front[i] == lines[i] && front[..i] == lines[..i];
    if RedirectsNotRepeated(lines) && Last(lines).RedirectLine? {
      assert !HasRedirect(lines[..|front|]);
    }
  }

  /** The parser holds the redirects of all redirect lines exactly when no element has two of them. */
  predicate RedirectsHeld(s: Parser, lines: seq<Line>) {
    var all := Redirects(Describe(lines));
    && (s.domains == [] ==> s.element.None?)
    && (OpenRedirect(s.element) != [] <==> HasRedirect(lines))
    && |HeldRedirects(s)| <= |all|
    && (HeldRedirects(s) == all <==> RedirectsNotRepeated(lines))
  }

  lemma {:induction false} RedirectsInRun(lines: seq<Line>)
    requires Run(lines).Ok?
    ensures RedirectsHeld(Run(lines).value, lines)
  {
    hide Run, Step, RedirectsHeld, RedirectsAfter;
    if lines == [] {
      NothingRun();
      NothingHeld();
    } else {
      RunBefore(lines);
      RedirectsInRun(Front(lines));
      PendingInRun(Front(lines));
      StepRedirectsHeld(Run(Front(lines)).value, lines);
    }
  }

  lemma NothingHeld()
    ensures RedirectsHeld(NEW_PARSER, [])
  {
  }

  lemma StepRedirectsHeld(s: Parser, lines: seq<Line>)
    requires lines != [] && Step(s, Last(lines), |lines|).Ok?
    requires RedirectsHeld(s, Front(lines)) && s.pending == PendingAfter(Front(lines))
    ensures RedirectsHeld(Step(s, Last(lines), |lines|).value, lines)
  {
    hide Step, Describe, Redirects, RedirectsNotRepeated, DomainRedirects, PendingAfter;
    var front, line := Front(lines), Last(lines);
    StepRedirects(s, line, |lines|);
    DescribeOneMore(lines);
    RedirectsOneMore(Describe(front), Last(Describe(lines)));
    NotRepeatedOneMore(lines);
    if line.RedirectLine? {
      OneMoreHeld(DomainRedirects(s.domains), OpenRedirect(s.element), Redirects(Describe(front)),
                  Redirect(s.pending, line.domain, None));
    }
  }

  lemma OneMoreHeld<T>(closed: seq<T>, open: seq<T>, all: seq<T>, x: T)
    requires |closed + open| <= |all|
    ensures |closed + [x]| <= |all + [x]|
    ensures closed + [x] == all + [x] <==> closed + open == all && open == []
  {
    if closed + [x] == all + [x] {
      assert closed == (closed + [x])[..|closed|] && all == (all + [x])[..|all|];
      assert |closed| == |all|;
      assert closed + open == all;
    }
    if closed + open == all && open == [] {
      assert closed == all;
    }
  }

  // ---------- The version ----------

  /** What the parser holds of the versions. */
  predicate VersionHeld(s: Parser, lines: Lines) {
    var v, major, minor := Picked(lines, IsVersion), Picked(lines, IsMajor), Picked(lines, IsMinor);
    && (v == [] ==> s.version.None? && major == [] && minor == [])
    && (v != [] ==> s.version.Some? && s.description == Last(v).description)
    && (|v| == 1 ==>
          && s.version.value.major == (if major == [] then 0 else Last(major).line.number)
          && s.version.value.minor == (if minor == [] then 0 else Last(minor).line.number))
  }

  lemma {:induction false} VersionInRun(lines: seq<Line>)
    requires Run(lines).Ok?
    ensures VersionHeld(Run(lines).value, Describe(lines))
  {
    if lines == [] {
      NothingRun();
    } else {
      var front, line := Front(lines), Last(lines);
      RunBefore(lines);
      DescribeOneMore(lines);
      hide Run, Describe, Picked;
      VersionInRun(front);
      PendingInRun(front);
      var before, d := Describe(front), Last(Describe(lines));
      PickedOneMore(before, d, IsVersion);
      PickedOneMore(before, d, IsMajor);
      PickedOneMore(before, d, IsMinor);
      VersionOneMore(Run(front).value, before, d, |lines|);
    }
  }

  lemma VersionOneMore(s: Parser, lines: Lines, d: Described, n: nat)
    requires VersionHeld(s, lines) && Step(s, d.line, n).Ok? && (Takes(d.line) ==> d.description == s.pending)
    ensures VersionHeld(Step(s, d.line, n).value, lines + [d])
  {
    hide Picked;
    PickedOneMore(lines, d, IsVersion);
    PickedOneMore(lines, d, IsMajor);
    PickedOneMore(lines, d, IsMinor);
    if !d.line.VersionLine? && !d.line.MajorLine? && !d.line.MinorLine? {
      Agreement.StepKeepsVersion(s, d.line, n);
      hide Step;
    }
  }

  lemma HeadingSaid(lines: Lines, heading: Option<string>)
    requires var v := Picked(lines, IsVersion); v != [] && heading == Last(v).description
    ensures Headings(lines) == [heading] <==> |Picked(lines, IsVersion)| <= 1
  {
    hide Picked;
    assert |Headings(lines)| == |Picked(lines, IsVersion)|;
  }

  lemma MajorSaid(lines: Lines, n: nat)
    requires var p := Picked(lines, IsMajor); n == if p == [] then 0 else Last(p).line.number
    ensures Majors(lines) == [n] <==> |Picked(lines, IsMajor)| <= 1
  {
    hide Picked;
    assert Picked(lines, IsMajor) != [] ==> |Majors(lines)| == |Picked(lines, IsMajor)|;
  }

  lemma MinorSaid(lines: Lines, n: nat)
    requires var p := Picked(lines, IsMinor); n == if p == [] then 0 else Last(p).line.number
    ensures Minors(lines) == [n] <==> |Picked(lines, IsMinor)| <= 1
  {
    hide Picked;
    assert Picked(lines, IsMinor) != [] ==> |Minors(lines)| == |Picked(lines, IsMinor)|;
  }

  lemma FinishedParser(lines: seq<Line>) returns (s: Parser)
    requires Parse(lines).Ok?
    ensures Run(lines) == Ok(s) && Close(s).Ok?
    ensures s.version == Some(Parse(lines).value.version) && s.description == Parse(lines).value.description
    ensures Close(s).value.domains == Parse(lines).value.domains
  {
    s := Run(lines).value;
    hide Run, Close;
    CloseKeepsRedirects(s);
  }

  /** A protocol says every declared version exactly when there is one version line, and at most one line for each of its
    * numbers. */
  lemma VersionSaidExactlyWhen(lines: seq<Line>)
    requires Parse(lines).Ok?
    ensures var p, d := Parse(lines).value, Describe(lines);
            && Headings(d) == [p.description] && Majors(d) == [p.version.major] && Minors(d) == [p.version.minor] <==>
                 Once(lines, IsVersion) && Once(lines, IsMajor) && Once(lines, IsMinor)
  {
    var s := FinishedParser(lines);
    VersionInRun(lines);
    PickedExactlyWhen(lines, IsVersion);
    PickedExactlyWhen(lines, IsMajor);
    PickedExactlyWhen(lines, IsMinor);
    hide Parse, Run, Close, Describe, Picked, Once, Never, Headings, Majors, Minors;
    HeadingSaid(Describe(lines), s.description);
    if Once(lines, IsVersion) {
      MajorSaid(Describe(lines), s.version.value.major);
      MinorSaid(Describe(lines), s.version.value.minor);
    }
  }

  // ---------- Parameters outside of elements ----------

  /** Every parameter line has an element of its domain before it. */
  predicate ParamsUnderElements(lines: seq<Line>) {
    forall i | 0 <= i < |lines| && lines[i].ParamLine? :: UnderElement(lines[..i])
  }

  lemma ParamsOneMore(lines: seq<Line>)
    requires lines != []
    ensures ParamsUnderElements(lines) <==>
            ParamsUnderElements(Front(lines)) && !(Last(lines).ParamLine? && !UnderElement(Front(lines)))
  {
    hide UnderElement;
    var front := Front(lines);
    assert forall i | 0 <= i < |front| :: front[i] == lines[i] && front[..i] == lines[..i];
    if ParamsUnderElements(lines) && Last(lines).ParamLine? {
      assert UnderElement(lines[..|front|]);
    }
  }

  lemma {:induction false} NoOrphansExactlyWhen(lines: seq<Line>)
    ensures Orphans(lines) == [] <==> ParamsUnderElements(lines)
  {
    if lines != [] {
      hide UnderElement, ParamsUnderElements;
      NoOrphansExactlyWhen(Front(lines));
      ParamsOneMore(lines);
    }
  }

  // ---------- All together ----------

  /** No version line, number or redirect is replaced, every comment is taken, and no parameter lies outside of the
    * elements. */
  predicate NothingReplaced(lines: seq<Line>) {
    && RedirectsNotRepeated(lines)
    && Once(lines, IsVersion) && Once(lines, IsMajor) && Once(lines, IsMinor)
    && CommentsTaken(lines) && ParamsUnderElements(lines)
  }

  lemma RedirectsSaidExactlyWhen(lines: seq<Line>)
    requires Parse(lines).Ok?
    ensures DomainRedirects(Parse(lines).value.domains) == Redirects(Describe(lines)) <==> RedirectsNotRepeated(lines)
  {
    RedirectsInRun(lines);
    var s := FinishedParser(lines);
    CloseKeepsRedirects(s);
    hide Parse, Run, Close, RedirectsNotRepeated, Redirects, DomainRedirects, HasRedirect;
    assert OpenRedirect(Close(s).value.element) == [];
    assert HeldRedirects(Close(s).value) == DomainRedirects(Close(s).value.domains);
  }

  /** The built protocol says all that the lines declare, exactly when it has the declared layout and nothing is
    * replaced. */
  lemma SaidExactlyWhen(lines: seq<Line>)
    requires Parse(lines).Ok?
    ensures Declares(lines) == Some(ContentsOf(Parse(lines).value)) <==>
            Grouped(lines, Declared) == Some(Parse(lines).value) && NothingReplaced(lines)
  {
    VersionSaidExactlyWhen(lines);
    RedirectsSaidExactlyWhen(lines);
    NothingPendingExactlyWhen(lines);
    NoOrphansExactlyWhen(lines);
    hide Parse, Grouped, Describe, Redirects, Headings, Majors, Minors, Orphans, PendingAfter, DomainRedirects, Once,
      RedirectsNotRepeated, CommentsTaken, ParamsUnderElements;
  }
}
