/** The protocol description that the parser builds (chromiumoxide_pdl/src/pdl/mod.rs:16-222). */
module Pdl {
  import opened Options

  datatype Version = Version(major: nat, minor: nat)

  datatype Variant = Variant(description: Option<string>, name: string)

  datatype Type =
    | Integer
    | Number
    | Boolean
    | String
    | Object
    | Any
    | Binary
    | Enum(variants: seq<Variant>)
    | ArrayOf(item: Type)
    | Ref(name: string)

  /** The type that a base name stands for. */
  function NewType(base: string, isArray: bool): Type
    decreases isArray
  {
    if isArray then ArrayOf(NewType(base, false))
    else if base == "enum" then Enum([])
    else if base == "integer" then Integer
    else if base == "number" then Number
    else if base == "boolean" then Boolean
    else if base == "string" then String
    else if base == "object" then Object
    else if base == "any" then Any
    else if base == "binary" then Binary
    else Ref(base)
  }

  /** No two base names stand for the same type. */
  lemma TypeDeterminesBase(a: string, b: string, arrayA: bool, arrayB: bool)
    requires NewType(a, arrayA) == NewType(b, arrayB)
    ensures a == b && arrayA == arrayB
  {
    assert NewType(a, false) == NewType(b, false);
  }

  /** What each type stands for: the eight names of the protocol's own types, any other name for a type defined
    * elsewhere, and arrays of these. */
  lemma TypeStandsFor(base: string, isArray: bool)
    ensures isArray ==> NewType(base, true) == ArrayOf(NewType(base, false))
    ensures var t := NewType(base, false);
            && (t == Integer <==> base == "integer")
            && (t == Number <==> base == "number")
            && (t == Boolean <==> base == "boolean")
            && (t == String <==> base == "string")
            && (t == Object <==> base == "object")
            && (t == Any <==> base == "any")
            && (t == Binary <==> base == "binary")
            && (t == Enum([]) <==> base == "enum")
            && (t == Ref(base) <==>
                  base !in {"integer", "number", "boolean", "string", "object", "any", "binary", "enum"})
  {
  }

  datatype Flags = Flags(experimental: bool, deprecated: bool)

  datatype Param = Param(
    description: Option<string>, flags: Flags, optional: bool, ty: Type, name: string, rawName: string)

  datatype Item = EnumItem(variants: seq<Variant>) | PropertiesItem(params: seq<Param>)

  datatype Redirect = Redirect(description: Option<string>, domain: string, name: Option<string>)

  datatype TypeDef = TypeDef(
    description: Option<string>, flags: Flags, name: string, extended: Type, item: Option<Item>, rawName: string)

  datatype Command = Command(
    description: Option<string>, flags: Flags, name: string, redirect: Option<Redirect>,
    parameters: seq<Param>, returned: seq<Param>, rawName: string)

  datatype Event = Event(
    description: Option<string>, flags: Flags, name: string, parameters: seq<Param>, rawName: string)

  datatype Domain = Domain(
    description: Option<string>, flags: Flags, name: string, dependencies: seq<string>,
    types: seq<TypeDef>, commands: seq<Command>, events: seq<Event>)

  datatype Protocol = Protocol(description: Option<string>, version: Version, domains: seq<Domain>)
}

/** The parser over classified lines (chromiumoxide_pdl/src/pdl/parser.rs:23-396). */
module PdlParserSpec {
  import opened Options
  import opened Sequences
  import opened Pdl

  datatype Section = Parameters | Returns | Properties

  /** A line as the parser's patterns classify it, tried in this order. */
  datatype Line =
    | Comment(text: string)
    | Blank
    | DomainLine(flags: Flags, name: string)
    | DependsLine(domain: string)
    | TypeLine(flags: Flags, name: string, isArray: bool, base: string)
    | CommandLine(flags: Flags, name: string)
    | EventLine(flags: Flags, name: string)
    | ParamLine(flags: Flags, optional: bool, isArray: bool, base: string, name: string)
    | SectionLine(section: Section)
    | EnumLine
    | VersionLine
    | MajorLine(number: nat)
    | MinorLine(number: nat)
    | RedirectLine(domain: string)
    | LiteralLine(name: string)
    | UnknownLine(text: string)

  datatype Error =
    | MissingDomain(line: nat)
    | NoSection(line: nat, name: string)
    | MemberWithoutParent(line: nat)
    | InvalidMember
    | PropertiesNotAllowed(name: string)
    | EnumNotAllowed(line: nat)
    | VersionNotDeclared(line: nat)
    | MissingItem(line: nat)
    | RedirectNotAllowed(line: nat)
    | MissingMember(line: nat)
    | MissingParameter(line: nat)
    | MissingEnum(line: nat)
    | UnknownToken(line: nat, text: string)
    | MissingVersion

  datatype Result<T> = Ok(value: T) | Err(error: Error)

  datatype Element = TypeElement(typeDef: TypeDef) | CommandElement(command: Command) | EventElement(event: Event)

  datatype Member = Member(section: Section, params: seq<Param>)

  datatype Parser = Parser(
    pending: Option<string>,
    description: Option<string>,
    version: Option<Version>,
    domains: seq<Domain>,
    element: Option<Element>,
    member: Option<Member>,
    memberEnum: bool)

  const NEW_PARSER := Parser(None, None, None, [], None, None, false)

  function Raw(domain: Domain, name: string): string {
    domain.name + "." + name
  }

  function Consumed(domain: Domain, e: Element): Domain {
    match e
    case TypeElement(t) => domain.(types := domain.types + [t])
    case CommandElement(c) => domain.(commands := domain.commands + [c])
    case EventElement(ev) => domain.(events := domain.events + [ev])
  }

  /** Attaches a section to its element. An earlier one of the same kind is replaced. */
  function AddMember(e: Element, m: Member): Result<Element> {
    match e
    case CommandElement(c) =>
      if m.section.Parameters? then Ok(CommandElement(c.(parameters := m.params)))
      else if m.section.Returns? then Ok(CommandElement(c.(returned := m.params)))
      else Err(InvalidMember)
    case EventElement(ev) =>
      if m.section.Parameters? then Ok(EventElement(ev.(parameters := m.params))) else Err(InvalidMember)
    case TypeElement(t) =>
      if !m.section.Properties? then Err(InvalidMember)
      else if t.item.Some? then Err(PropertiesNotAllowed(t.name))
      else Ok(TypeElement(t.(item := Some(PropertiesItem(m.params)))))
  }

  /** Finishes the open element, if there is one, with its open section. A section without an element stays open. */
  function Close(s: Parser): Result<Parser> {
    if s.domains == [] || s.element.None? then Ok(s)
    else
      var e := if s.member.Some? then AddMember(s.element.value, s.member.value) else Ok(s.element.value);
      match e
      case Err(error) => Err(error)
      case Ok(e) => Ok(s.(domains := Front(s.domains) + [Consumed(Last(s.domains), e)], element := None, member := None))
  }

  function OpenElement(s: Parser, line: Line): Element
    requires s.domains != [] && (line.TypeLine? || line.CommandLine? || line.EventLine?)
  {
    var raw := Raw(Last(s.domains), line.name);
    match line
    case TypeLine(flags, name, isArray, base) =>
      TypeElement(TypeDef(s.pending, flags, name, NewType(base, isArray), None, raw))
    case CommandLine(flags, name) => CommandElement(Command(s.pending, flags, name, None, [], [], raw))
    case EventLine(flags, name) => EventElement(Event(s.pending, flags, name, [], raw))
  }

  function OnElement(s: Parser, line: Line, n: nat): Result<Parser>
    requires line.TypeLine? || line.CommandLine? || line.EventLine?
  {
    if s.domains == [] then Err(MissingDomain(n))
    else match Close(s)
      case Err(error) => Err(error)
      case Ok(s1) => Ok(s1.(element := Some(OpenElement(s1, line)), pending := None))
  }

  function OnParam(s: Parser, line: Line, n: nat): Result<Parser>
    requires line.ParamLine?
  {
    if s.domains == [] then Err(MissingDomain(n))
    else if s.member.None? then Err(NoSection(n, line.name))
    else
      var param := Param(s.pending, line.flags, line.optional, NewType(line.base, line.isArray), line.name,
                         Raw(Last(s.domains), line.name));
      Ok(s.(pending := None, member := Some(s.member.value.(params := s.member.value.params + [param])),
            memberEnum := s.memberEnum || line.base == "enum"))
  }

  function OnSection(s: Parser, section: Section, n: nat): Result<Parser> {
    var next := s.(member := Some(Member(section, [])));
    if s.member.None? then Ok(next)
    else if s.element.None? then Err(MemberWithoutParent(n))
    else match AddMember(s.element.value, s.member.value)
      case Err(error) => Err(error)
      case Ok(e) => Ok(next.(element := Some(e)))
  }

  function OnEnum(s: Parser, n: nat): Result<Parser> {
    if s.element.Some? && s.element.value.TypeElement? && s.element.value.typeDef.item.None?
    then Ok(s.(memberEnum := false,
               element := Some(TypeElement(s.element.value.typeDef.(item := Some(EnumItem([])))))))
    else Err(EnumNotAllowed(n))
  }

  /** The redirect's own name is read from a description that was just taken away, so it is never found. */
  function OnRedirect(s: Parser, domain: string, n: nat): Result<Parser> {
    if s.element.None? then Err(MissingItem(n))
    else if !s.element.value.CommandElement? then Err(RedirectNotAllowed(n))
    else
      var c := s.element.value.command.(redirect := Some(Redirect(s.pending, domain, None)));
      Ok(s.(pending := None, element := Some(CommandElement(c))))
  }

  /** A literal belongs to the last parameter if that is an enumeration, else to the enumeration of the open type. */
  function OnLiteral(s: Parser, name: string, n: nat): Result<Parser> {
    var variant := Variant(s.pending, name);
    if s.memberEnum then
      if s.member.None? then Err(MissingMember(n))
      else
        var params := s.member.value.params;
        if params == [] then Err(MissingParameter(n))
        else if !Last(params).ty.Enum? then Err(MissingEnum(n))
        else
          var param := Last(params).(ty := Enum(Last(params).ty.variants + [variant]));
          Ok(s.(pending := None, member := Some(s.member.value.(params := Front(params) + [param]))))
    else if s.element.None? then Err(MissingItem(n))
    else
      var e := s.element.value;
      if e.TypeElement? && e.typeDef.item.Some? && e.typeDef.item.value.EnumItem?
      then Ok(s.(pending := None,
                 element := Some(TypeElement(
                   e.typeDef.(item := Some(EnumItem(e.typeDef.item.value.variants + [variant])))))))
      else Err(MissingEnum(n))
  }

  function Commented(pending: Option<string>, text: string): Option<string> {
    if pending.Some? then Some(pending.value + "\n" + text) else Some(text)
  }

  /** Line number `n` of the input. */
  function Step(s: Parser, line: Line, n: nat): Result<Parser> {
    match line
    case Comment(text) => Ok(s.(pending := Commented(s.pending, text)))
    case Blank => Ok(s)
    case DomainLine(flags, name) =>
      (match Close(s)
       case Err(error) => Err(error)
       case Ok(s1) =>
         Ok(s1.(domains := s1.domains + [Domain(s1.pending, flags, name, [], [], [], [])], pending := None)))
    case DependsLine(name) =>
      if s.domains == [] then Err(MissingDomain(n))
      else
        var domain := Last(s.domains);
        Ok(s.(domains := Front(s.domains) + [domain.(dependencies := domain.dependencies + [name])]))
    case TypeLine(_, _, _, _) => OnElement(s, line, n)
    case CommandLine(_, _) => OnElement(s, line, n)
    case EventLine(_, _) => OnElement(s, line, n)
    case ParamLine(_, _, _, _, _) => OnParam(s, line, n)
    case SectionLine(section) => OnSection(s, section, n)
    case EnumLine => OnEnum(s, n)
    case VersionLine => Ok(s.(description := s.pending, pending := None, version := Some(Version(0, 0))))
    case MajorLine(number) =>
      if s.version.None? then Err(VersionNotDeclared(n)) else Ok(s.(version := Some(s.version.value.(major := number))))
    case MinorLine(number) =>
      if s.version.None? then Err(VersionNotDeclared(n)) else Ok(s.(version := Some(s.version.value.(minor := number))))
    case RedirectLine(domain) => OnRedirect(s, domain, n)
    case LiteralLine(name) => OnLiteral(s, name, n)
    case UnknownLine(text) => Err(UnknownToken(n, text))
  }

  /** The parser after all of `lines`, numbered from one. */
  function Run(lines: seq<Line>): Result<Parser> {
    if lines == [] then Ok(NEW_PARSER)
    else match Run(Front(lines))
      case Err(error) => Err(error)
      case Ok(s) => Step(s, Last(lines), |lines|)
  }

  function Finish(s: Parser): Result<Protocol> {
    match Close(s)
    case Err(error) => Err(error)
    case Ok(s1) =>
      if s1.version.None? then Err(MissingVersion) else Ok(Protocol(s1.description, s1.version.value, s1.domains))
  }

  function Parse(lines: seq<Line>): Result<Protocol> {
    match Run(lines)
    case Err(error) => Err(error)
    case Ok(s) => Finish(s)
  }
}

/** The parser as it runs: one pass over the lines. */
module PdlParsers {
  import opened Options
  import opened Sequences
  import opened Pdl
  import opened PdlParserSpec

  class PdlParser {
    var description: Option<string>
    var protocolDescription: Option<string>
    var version: Option<Version>
    var domains: seq<Domain>
    var element: Option<Element>
    var member: Option<Member>
    var memberEnum: bool

    constructor ()
      ensures State() == NEW_PARSER
    {
      description, protocolDescription, version, domains := None, None, None, [];
      element, member, memberEnum := None, None, false;
    }

    function State(): Parser
      reads this
    {
      Parser(description, protocolDescription, version, domains, element, member, memberEnum)
    }

    /** The parser failed with `error`, or is in the state that `r` says. */
    predicate Is(r: Result<Parser>, error: Option<Error>)
      reads this
    {
      match r
      case Err(e) => error == Some(e)
      case Ok(s) => error.None? && State() == s
    }

    method TakeDescription() returns (taken: Option<string>)
      modifies this`description
      ensures taken == old(description) && description.None?
    {
      taken := description;
      description := None;
    }

    method CloseElement() returns (error: Option<Error>)
      modifies this`domains, this`element, this`member
      ensures Is(Close(old(State())), error)
    {
      if domains != [] && element.Some? {
        var e := element.value;
        element := None;
        if member.Some? {
          var added := AddMember(e, member.value);
          member := None;
          if added.Err? {
            return Some(added.error);
          }
          e := added.value;
        }
        domains := domains[|domains| - 1 := Consumed(domains[|domains| - 1], e)];
      }
      error := None;
    }

    method OnDomain(flags: Flags, name: string, ghost n: nat) returns (error: Option<Error>)
      modifies this
      ensures Is(Step(old(State()), DomainLine(flags, name), n), error)
    {
      error := CloseElement();
      if error.None? {
        var taken := TakeDescription();
        domains := domains + [Domain(taken, flags, name, [], [], [], [])];
      }
    }

    method OnDepends(domain: string, n: nat) returns (error: Option<Error>)
      modifies this
      ensures Is(Step(old(State()), DependsLine(domain), n), error)
    {
      if domains == [] {
        return Some(MissingDomain(n));
      }
      var last := domains[|domains| - 1];
      domains := domains[|domains| - 1 := last.(dependencies := last.dependencies + [domain])];
      error := None;
    }

    method OnElement(line: Line, n: nat) returns (error: Option<Error>)
      requires line.TypeLine? || line.CommandLine? || line.EventLine?
      modifies this
      ensures Is(PdlParserSpec.OnElement(old(State()), line, n), error)
    {
      if domains == [] {
        return Some(MissingDomain(n));
      }
      error := CloseElement();
      if error.None? {
        var raw := domains[|domains| - 1].name + "." + line.name;
        var taken := TakeDescription();
        match line
        case TypeLine(flags, name, isArray, base) =>
          element := Some(TypeElement(TypeDef(taken, flags, name, NewType(base, isArray), None, raw)));
        case CommandLine(flags, name) =>
          element := Some(CommandElement(Command(taken, flags, name, None, [], [], raw)));
        case EventLine(flags, name) =>
          element := Some(EventElement(Event(taken, flags, name, [], raw)));
      }
    }

    method OnParam(line: Line, n: nat) returns (error: Option<Error>)
      requires line.ParamLine?
      modifies this
      ensures Is(PdlParserSpec.OnParam(old(State()), line, n), error)
    {
      if domains == [] {
        return Some(MissingDomain(n));
      }
      var taken := TakeDescription();
      var raw := domains[|domains| - 1].name + "." + line.name;
      var param := Param(taken, line.flags, line.optional, NewType(line.base, line.isArray), line.name, raw);
      if member.None? {
        return Some(NoSection(n, line.name));
      }
      member := Some(Member(member.value.section, member.value.params + [param]));
      if line.base == "enum" {
        memberEnum := true;
      }
      error := None;
    }

    method OnSection(section: Section, n: nat) returns (error: Option<Error>)
      modifies this
      ensures Is(PdlParserSpec.OnSection(old(State()), section, n), error)
    {
      if member.Some? {
        var m := member.value;
        member := None;
        if element.None? {
          return Some(MemberWithoutParent(n));
        }
        var added := AddMember(element.value, m);
        if added.Err? {
          return Some(added.error);
        }
        element := Some(added.value);
      }
      member := Some(Member(section, []));
      error := None;
    }

    method OnEnum(n: nat) returns (error: Option<Error>)
      modifies this
      ensures Is(PdlParserSpec.OnEnum(old(State()), n), error)
    {
      memberEnum := false;
      if element.Some? && element.value.TypeElement? {
        var t := element.value.typeDef;
        if t.item.None? {
          element := Some(TypeElement(t.(item := Some(EnumItem([])))));
          return None;
        }
      }
      error := Some(EnumNotAllowed(n));
    }

    method OnRedirect(domain: string, n: nat) returns (error: Option<Error>)
      modifies this
      ensures Is(PdlParserSpec.OnRedirect(old(State()), domain, n), error)
    {
      var taken := TakeDescription();
      if element.None? {
        return Some(MissingItem(n));
      }
      if !element.value.CommandElement? {
        return Some(RedirectNotAllowed(n));
      }
      element := Some(CommandElement(element.value.command.(redirect := Some(Redirect(taken, domain, None)))));
      error := None;
    }

    method OnLiteral(name: string, n: nat) returns (error: Option<Error>)
      modifies this
      ensures Is(PdlParserSpec.OnLiteral(old(State()), name, n), error)
    {
      if memberEnum {
        if member.None? {
          return Some(MissingMember(n));
        }
        var params := member.value.params;
        if params == [] {
          return Some(MissingParameter(n));
        }
        var last := params[|params| - 1];
        if !last.ty.Enum? {
          return Some(MissingEnum(n));
        }
        var taken := TakeDescription();
        last := last.(ty := Enum(last.ty.variants + [Variant(taken, name)]));
        assert params[|params| - 1 := last] == Front(params) + [last];
        member := Some(Member(member.value.section, params[|params| - 1 := last]));
      } else {
        if element.None? {
          return Some(MissingItem(n));
        }
        if !element.value.TypeElement? {
          return Some(MissingEnum(n));
        }
        var t := element.value.typeDef;
        if t.item.None? || !t.item.value.EnumItem? {
          return Some(MissingEnum(n));
        }
        var taken := TakeDescription();
        var variants := t.item.value.variants + [Variant(taken, name)];
        element := Some(TypeElement(t.(item := Some(EnumItem(variants)))));
      }
      error := None;
    }

    method OnVersionNumber(line: Line, n: nat) returns (error: Option<Error>)
      requires line.MajorLine? || line.MinorLine?
      modifies this
      ensures Is(Step(old(State()), line, n), error)
    {
      if version.None? {
        return Some(VersionNotDeclared(n));
      }
      version := Some(if line.MajorLine? then version.value.(major := line.number)
                      else version.value.(minor := line.number));
      error := None;
    }

    method OnLine(line: Line, n: nat) returns (error: Option<Error>)
      modifies this
      ensures Is(Step(old(State()), line, n), error)
    {
      hide Close, PdlParserSpec.OnElement, PdlParserSpec.OnParam, PdlParserSpec.OnSection, PdlParserSpec.OnEnum,
        PdlParserSpec.OnRedirect, PdlParserSpec.OnLiteral;
      error := None;
      match line
      case Comment(text) =>
        description := if description.Some? then Some(description.value + "\n" + text) else Some(text);
      case Blank =>
      case DomainLine(flags, name) => error := OnDomain(flags, name, n);
      case DependsLine(domain) => error := OnDepends(domain, n);
      case ParamLine(_, _, _, _, _) => error := OnParam(line, n);
      case SectionLine(section) => error := OnSection(section, n);
      case EnumLine => error := OnEnum(n);
      case VersionLine =>
        protocolDescription := TakeDescription();
        version := Some(Version(0, 0));
      case MajorLine(_) => error := OnVersionNumber(line, n);
      case MinorLine(_) => error := OnVersionNumber(line, n);
      case RedirectLine(domain) => error := OnRedirect(domain, n);
      case LiteralLine(name) => error := OnLiteral(name, n);
      case UnknownLine(text) => error := Some(UnknownToken(n, text));
      case _ => error := OnElement(line, n);
    }
  }

  lemma {:induction false} FirstErrorStays(lines: seq<Line>, i: nat)
    requires i <= |lines| && Run(lines[..i]).Err?
    ensures Run(lines) == Run(lines[..i])
    decreases |lines| - i
  {
    if i == |lines| {
      assert lines[..i] == lines;
    } else {
      assert Front(lines[..i + 1]) == lines[..i];
      FirstErrorStays(lines, i + 1);
    }
  }

  method ParsePdl(lines: seq<Line>) returns (result: Result<Protocol>)
    ensures result == Parse(lines)
  {
    var parser := new PdlParser();
    for i := 0 to |lines|
      invariant Run(lines[..i]) == Ok(parser.State())
    {
      assert Front(lines[..i + 1]) == lines[..i] && Last(lines[..i + 1]) == lines[i];
      var error := parser.OnLine(lines[i], i + 1);
      if error.Some? {
        FirstErrorStays(lines, i + 1);
        return Err(error.value);
      }
    }
    assert lines[..|lines|] == lines;
    var error := parser.CloseElement();
    if error.Some? {
      return Err(error.value);
    }
    if parser.version.None? {
      return Err(MissingVersion);
    }
    result := Ok(Protocol(parser.protocolDescription, parser.version.value, parser.domains));
  }
}
