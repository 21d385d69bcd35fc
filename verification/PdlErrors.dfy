/** Which inputs the PDL parser accepts, and with which error it refuses the others, said of the lines
  * (chromiumoxide_pdl/src/pdl/parser.rs:34-396). */
module PdlErrors {
  import opened Options
  import opened Sequences
  import opened Pdl
  import opened PdlParserSpec

  // ---------- What stands before a line ----------

  predicate HasDomain(lines: seq<Line>) {
    lines != [] && (Last(lines).DomainLine? || HasDomain(Front(lines)))
  }

  predicate HasVersion(lines: seq<Line>) {
    lines != [] && (Last(lines).VersionLine? || HasVersion(Front(lines)))
  }

  predicate IsElement(line: Line) {
    line.TypeLine? || line.CommandLine? || line.EventLine?
  }

  /** The last element of the last domain. */
  function LastElement(lines: seq<Line>): Option<Line> {
    if lines == [] || Last(lines).DomainLine? then None
    else if IsElement(Last(lines)) then Some(Last(lines))
    else LastElement(Front(lines))
  }

  /** A line that ends the element before it, and with that its section. */
  predicate EndsElement(lines: seq<Line>) {
    lines != [] && (Last(lines).DomainLine? || IsElement(Last(lines))) && LastElement(Front(lines)).Some?
  }

  /** The section that is open: declared, and its element not ended since. */
  function SectionOf(lines: seq<Line>): Option<Section> {
    if lines == [] || EndsElement(lines) then None
    else if Last(lines).SectionLine? then Some(Last(lines).section)
    else SectionOf(Front(lines))
  }

  /** The last element is a type that has an enumeration, or a closed section of properties. */
  predicate HasItem(lines: seq<Line>) {
    lines != [] && !Last(lines).DomainLine? && !IsElement(Last(lines)) &&
    (|| HasItem(Front(lines))
     || Last(lines).EnumLine?
     || (Last(lines).SectionLine? && SectionOf(Front(lines)) == Some(Properties)))
  }

  /** The last element has an enumeration. */
  predicate HasEnumeration(lines: seq<Line>) {
    lines != [] && !Last(lines).DomainLine? && !IsElement(Last(lines)) &&
    (Last(lines).EnumLine? || HasEnumeration(Front(lines)))
  }

  /** Since the last enumeration of a type, there was a parameter that is one. */
  predicate AfterEnumParam(lines: seq<Line>) {
    lines != [] && !Last(lines).EnumLine? &&
    ((Last(lines).ParamLine? && Last(lines).base == "enum") || AfterEnumParam(Front(lines)))
  }

  /** The last parameter of the open section. */
  function LastParam(lines: seq<Line>): (r: Option<Line>)
    ensures r.Some? ==> r.value.ParamLine?
  {
    if lines == [] || EndsElement(lines) || Last(lines).SectionLine? then None
    else if Last(lines).ParamLine? then Some(Last(lines))
    else LastParam(Front(lines))
  }

  // ---------- What is wrong with a line ----------

  /** Why the open section cannot belong to the element, if it cannot. */
  function Mismatch(lines: seq<Line>): Option<Error> {
    match (LastElement(lines), SectionOf(lines))
    case (Some(CommandLine(_, _)), Some(section)) => if section.Properties? then Some(InvalidMember) else None
    case (Some(EventLine(_, _)), Some(section)) => if section.Parameters? then None else Some(InvalidMember)
    case (Some(TypeLine(_, name, _, _)), Some(section)) =>
      if !section.Properties? then Some(InvalidMember)
      else if HasItem(lines) then Some(PropertiesNotAllowed(name))
      else None
    case _ => None
  }

  /** What is wrong with a line after these lines, if anything is. */
  function Complaint(before: seq<Line>, line: Line, n: nat): Option<Error> {
    match line
    case Comment(_) => None
    case Blank => None
    case VersionLine => None
    case DomainLine(_, _) => Mismatch(before)
    case DependsLine(_) => if HasDomain(before) then None else Some(MissingDomain(n))
    case TypeLine(_, _, _, _) => if HasDomain(before) then Mismatch(before) else Some(MissingDomain(n))
    case CommandLine(_, _) => if HasDomain(before) then Mismatch(before) else Some(MissingDomain(n))
    case EventLine(_, _) => if HasDomain(before) then Mismatch(before) else Some(MissingDomain(n))
    case ParamLine(_, _, _, _, name) =>
      if !HasDomain(before) then Some(MissingDomain(n))
      else if SectionOf(before).None? then Some(NoSection(n, name))
      else None
    case SectionLine(_) =>
      if SectionOf(before).None? then None
      else if LastElement(before).None? then Some(MemberWithoutParent(n))
      else Mismatch(before)
    case EnumLine =>
      if LastElement(before).Some? && LastElement(before).value.TypeLine? && !HasItem(before) then None else Some(EnumNotAllowed(n))
    case MajorLine(_) => if HasVersion(before) then None else Some(VersionNotDeclared(n))
    case MinorLine(_) => if HasVersion(before) then None else Some(VersionNotDeclared(n))
    case RedirectLine(_) =>
      if LastElement(before).None? then Some(MissingItem(n))
      else if LastElement(before).value.CommandLine? then None
      else Some(RedirectNotAllowed(n))
    case LiteralLine(_) => Misplaced(before, n)
    case UnknownLine(text) => Some(UnknownToken(n, text))
  }

  /** What is wrong with a literal after these lines, if anything is. */
  function Misplaced(before: seq<Line>, n: nat): Option<Error> {
    if AfterEnumParam(before) then
      if SectionOf(before).None? then Some(MissingMember(n))
      else match LastParam(before)
        case None => Some(MissingParameter(n))
        case Some(param) => if param.base == "enum" && !param.isArray then None else Some(MissingEnum(n))
    else if LastElement(before).None? then Some(MissingItem(n))
    else if LastElement(before).value.TypeLine? && HasEnumeration(before) then None
    else Some(MissingEnum(n))
  }

  /** The first complaint about a line, if there is one. */
  function FirstComplaint(lines: seq<Line>): Option<Error> {
    if lines == [] then None
    else if FirstComplaint(Front(lines)).Some? then FirstComplaint(Front(lines))
    else Complaint(Front(lines), Last(lines), |lines|)
  }

  /** Why the input is refused, if it is: the first complaint about a line, or about the end. */
  function Refusal(lines: seq<Line>): Option<Error> {
    if FirstComplaint(lines).Some? then FirstComplaint(lines)
    else if Mismatch(lines).Some? then Mismatch(lines)
    else if !HasVersion(lines) then Some(MissingVersion)
    else None
  }

  function ErrorOf<T>(r: Result<T>): Option<Error> {
    if r.Ok? then None else Some(r.error)
  }

  // ---------- The parser knows these things ----------

  predicate SameKind(e: Option<Element>, line: Option<Line>) {
    match (e, line)
    case (None, None) => true
    case (Some(TypeElement(t)), Some(TypeLine(_, name, _, _))) => t.name == name
    case (Some(CommandElement(_)), Some(CommandLine(_, _))) => true
    case (Some(EventElement(_)), Some(EventLine(_, _))) => true
    case _ => false
  }

  predicate ItemFits(e: Option<Element>, hasItem: bool, hasEnumeration: bool) {
    e.Some? && e.value.TypeElement? ==>
      && (e.value.typeDef.item.Some? <==> hasItem)
      && (e.value.typeDef.item.Some? && e.value.typeDef.item.value.EnumItem? <==> hasEnumeration)
  }

  predicate MemberFits(m: Option<Member>, section: Option<Section>, param: Option<Line>) {
    && (m.Some? <==> section.Some?)
    && (m.Some? ==>
          && m.value.section == section.value
          && (m.value.params == [] <==> param.None?)
          && (param.Some? ==>
                && param.value.ParamLine?
                && (Last(m.value.params).ty.Enum? <==> param.value.base == "enum" && !param.value.isArray)))
  }

  predicate Knows(s: Parser, lines: seq<Line>) {
    && (s.domains != [] <==> HasDomain(lines)) && (s.version.Some? <==> HasVersion(lines))
    && SameKind(s.element, LastElement(lines)) && (s.element.Some? ==> s.domains != [])
    && ItemFits(s.element, HasItem(lines), HasEnumeration(lines))
    && MemberFits(s.member, SectionOf(lines), LastParam(lines))
    && s.memberEnum == AfterEnumParam(lines)
  }

  /** Attaching the open section fails exactly so. */
  lemma AttachingFails(s: Parser, lines: seq<Line>)
    requires Knows(s, lines) && s.element.Some? && s.member.Some?
    ensures ErrorOf(AddMember(s.element.value, s.member.value)) == Mismatch(lines)
  {
    hide HasDomain, HasVersion, LastElement, SectionOf, HasItem, HasEnumeration, AfterEnumParam, LastParam;
  }

  lemma ClosingFails(s: Parser, lines: seq<Line>)
    requires Knows(s, lines)
    ensures ErrorOf(Close(s)) == Mismatch(lines)
  {
    if s.element.Some? && s.member.Some? {
      AttachingFails(s, lines);
    }
    hide HasDomain, HasVersion, LastElement, SectionOf, HasItem, HasEnumeration, AfterEnumParam, LastParam, AddMember;
  }

  /** A line fails exactly if there is a complaint about it. */
  lemma StepFails(s: Parser, lines: seq<Line>, line: Line, n: nat)
    requires Knows(s, lines)
    ensures ErrorOf(Step(s, line, n)) == Complaint(lines, line, n)
  {
    ClosingFails(s, lines);
    if s.element.Some? && s.member.Some? {
      AttachingFails(s, lines);
    }
    hide HasDomain, HasVersion, LastElement, SectionOf, HasItem, HasEnumeration, AfterEnumParam, LastParam, AddMember, Close,
      Mismatch, NewType;
  }

  lemma AtStart()
    ensures Knows(NEW_PARSER, [])
  {
  }

  lemma OneMore(lines: seq<Line>, line: Line)
    ensures Front(lines + [line]) == lines && Last(lines + [line]) == line && lines + [line] != []
  {
  }

  /** What stays of the parser when the open element is closed. */
  lemma ClosedKnows(s: Parser, lines: seq<Line>)
    requires Knows(s, lines) && Close(s).Ok?
    ensures var t := Close(s).value;
            && (t.domains != [] <==> HasDomain(lines)) && (t.version.Some? <==> HasVersion(lines))
            && t.element.None? && t.memberEnum == AfterEnumParam(lines)
            && (LastElement(lines).Some? ==> t.member.None?)
            && (LastElement(lines).None? ==> t.member == s.member)
  {
    hide HasDomain, HasVersion, LastElement, SectionOf, HasItem, HasEnumeration, AfterEnumParam, LastParam, AddMember, Consumed;
  }

  lemma DomainKnows(s: Parser, lines: seq<Line>, line: Line, n: nat)
    requires Knows(s, lines) && line.DomainLine? && Step(s, line, n).Ok?
    ensures Knows(Step(s, line, n).value, lines + [line])
  {
    ClosedKnows(s, lines);
    OneMore(lines, line);
    hide Close;
  }

  lemma ElementKnows(s: Parser, lines: seq<Line>, line: Line, n: nat)
    requires Knows(s, lines) && IsElement(line) && Step(s, line, n).Ok?
    ensures Knows(Step(s, line, n).value, lines + [line])
  {
    ClosedKnows(s, lines);
    OneMore(lines, line);
    hide Close, NewType;
  }

  lemma SectionKnows(s: Parser, lines: seq<Line>, line: Line, n: nat)
    requires Knows(s, lines) && line.SectionLine? && Step(s, line, n).Ok?
    ensures Knows(Step(s, line, n).value, lines + [line])
  {
    OneMore(lines, line);
    hide NewType;
  }

  lemma ParamKnows(s: Parser, lines: seq<Line>, line: Line, n: nat)
    requires Knows(s, lines) && line.ParamLine? && Step(s, line, n).Ok?
    ensures Knows(Step(s, line, n).value, lines + [line])
  {
    OneMore(lines, line);
    TypeStandsFor(line.base, line.isArray);
    EnumsAreEnums(line.base, line.isArray);
    hide NewType;
  }

  lemma EnumsAreEnums(base: string, isArray: bool)
    ensures NewType(base, isArray).Enum? <==> base == "enum" && !isArray
  {
  }

  lemma LiteralKnows(s: Parser, lines: seq<Line>, line: Line, n: nat)
    requires Knows(s, lines) && (line.LiteralLine? || line.EnumLine? || line.RedirectLine?) && Step(s, line, n).Ok?
    ensures Knows(Step(s, line, n).value, lines + [line])
  {
    OneMore(lines, line);
  }

  lemma OtherKnows(s: Parser, lines: seq<Line>, line: Line, n: nat)
    requires Knows(s, lines) && Step(s, line, n).Ok?
    requires line.Comment? || line.Blank? || line.DependsLine? || line.VersionLine? || line.MajorLine? || line.MinorLine?
             || line.UnknownLine?
    ensures Knows(Step(s, line, n).value, lines + [line])
  {
    OneMore(lines, line);
  }

  lemma StepKnows(s: Parser, lines: seq<Line>, line: Line, n: nat)
    requires Knows(s, lines) && Step(s, line, n).Ok?
    ensures Knows(Step(s, line, n).value, lines + [line])
  {
    hide Knows, Step;
    match line
    case DomainLine(_, _) => DomainKnows(s, lines, line, n);
    case TypeLine(_, _, _, _) => ElementKnows(s, lines, line, n);
    case CommandLine(_, _) => ElementKnows(s, lines, line, n);
    case EventLine(_, _) => ElementKnows(s, lines, line, n);
    case SectionLine(_) => SectionKnows(s, lines, line, n);
    case ParamLine(_, _, _, _, _) => ParamKnows(s, lines, line, n);
    case LiteralLine(_) => LiteralKnows(s, lines, line, n);
    case EnumLine => LiteralKnows(s, lines, line, n);
    case RedirectLine(_) => LiteralKnows(s, lines, line, n);
    case _ => OtherKnows(s, lines, line, n);
  }

  /** The parser stops at the first line that there is a complaint about, with this complaint. */
  lemma {:induction false} RunFails(lines: seq<Line>)
    ensures ErrorOf(Run(lines)) == FirstComplaint(lines)
    ensures Run(lines).Ok? ==> Knows(Run(lines).value, lines)
  {
    if lines == [] {
      AtStart();
    } else {
      var front, line := Front(lines), Last(lines);
      assert front + [line] == lines;
      RunFails(front);
      if Run(front).Ok? {
        hide Step, Knows, Complaint;
        StepFails(Run(front).value, front, line, |lines|);
        if Step(Run(front).value, line, |lines|).Ok? {
          StepKnows(Run(front).value, front, line, |lines|);
        }
      }
    }
  }

  /** The parser refuses an input exactly if there is a complaint about one of its lines, or about its end, and then with
    * the first complaint. All other inputs it accepts. */
  lemma RefusedExactlyWhen(lines: seq<Line>)
    ensures ErrorOf(Parse(lines)) == Refusal(lines)
  {
    RunFails(lines);
    if Run(lines).Ok? {
      var s := Run(lines).value;
      ClosingFails(s, lines);
      if Close(s).Ok? {
        ClosedKnows(s, lines);
      }
    }
    hide Run, Close, Knows, Mismatch, HasVersion, FirstComplaint;
  }
}
