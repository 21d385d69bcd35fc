/** What the parser should build: the lines grouped by domain, element, section and parameter. */
module PdlGrouping {
  import opened Options
  import opened Sequences
  import opened Pdl
  import opened PdlParserSpec

  // ---------- Descriptions ----------

  /** A line with the description that it takes and the name of the domain that it belongs to. */
  datatype Described = Described(line: Line, description: Option<string>, domain: string)

  predicate Takes(line: Line) {
    || line.DomainLine? || line.TypeLine? || line.CommandLine? || line.EventLine? || line.ParamLine?
    || line.VersionLine? || line.RedirectLine? || line.LiteralLine?
  }

  /** The comments since the last line that took a description. */
  function Comments(lines: seq<Line>): seq<string> {
    if lines == [] || Takes(Last(lines)) then []
    else Comments(Front(lines)) + if Last(lines).Comment? then [Last(lines).text] else []
  }

  /** The texts as the lines of one text. */
  function Joined(texts: seq<string>): string
    requires texts != []
  {
    if |texts| == 1 then texts[0] else Joined(Front(texts)) + "\n" + Last(texts)
  }

  function PendingAfter(lines: seq<Line>): Option<string> {
    if Comments(lines) == [] then None else Some(Joined(Comments(lines)))
  }

  lemma PendingOneMore(lines: seq<Line>)
    requires lines != []
    ensures PendingAfter(lines) ==
            if Last(lines).Comment? then Commented(PendingAfter(Front(lines)), Last(lines).text)
            else if Takes(Last(lines)) then None
            else PendingAfter(Front(lines))
  {
    var before := Comments(Front(lines));
    if Last(lines).Comment? {
      assert Front(before + [Last(lines).text]) == before;
    } else {
      assert before + [] == before;
    }
  }

  /** The name of the last domain, if there is one. */
  function DomainAfter(lines: seq<Line>): string {
    if lines == [] then "" else if Last(lines).DomainLine? then Last(lines).name else DomainAfter(Front(lines))
  }

  /** Every description goes to the next line that takes one. */
  function Describe(lines: seq<Line>): (r: seq<Described>)
    ensures |r| == |lines|
  {
    if lines == [] then []
    else
      var description := if Takes(Last(lines)) then PendingAfter(Front(lines)) else None;
      Describe(Front(lines)) + [Described(Last(lines), description, DomainAfter(lines))]
  }

  // ---------- Groups ----------

  datatype Group<T> = Group(head: T, tail: seq<T>) {
    function Add(x: T): Group<T> {
      Group(head, tail + [x])
    }
  }

  predicate AllStart<T>(groups: seq<Group<T>>, starts: T -> bool) {
    forall i | 0 <= i < |groups| :: starts(groups[i].head)
  }

  /** The groups that begin at each element satisfying `starts`. What comes before the first belongs to none. */
  function Groups<T>(s: seq<T>, starts: T -> bool): (r: seq<Group<T>>)
    ensures AllStart(r, starts)
  {
    if s == [] then []
    else
      var before := Groups(Front(s), starts);
      if starts(Last(s)) then before + [Group(Last(s), [])]
      else if before == [] then []
      else Front(before) + [Last(before).Add(Last(s))]
  }

  function Concat<T>(groups: seq<Group<T>>): seq<T> {
    if groups == [] then [] else Concat(Front(groups)) + [Last(groups).head] + Last(groups).tail
  }

  /** What comes before the first start. */
  function Lead<T>(s: seq<T>, starts: T -> bool): seq<T> {
    if s == [] || starts(s[0]) then [] else [s[0]] + Lead(s[1..], starts)
  }

  /** Grouping cuts, and neither loses nor reorders: the groups make up everything from the first start on. */
  lemma {:induction false} GroupsCut<T>(s: seq<T>, starts: T -> bool)
    ensures Lead(s, starts) + Concat(Groups(s, starts)) == s
    ensures Groups(s, starts) == [] <==> Lead(s, starts) == s
  {
    if s != [] {
      var front, x := Front(s), Last(s);
      var g, lead := Groups(front, starts), Lead(front, starts);
      GroupsCut(front, starts);
      assert s == front + [x];
      LeadOneMore(front, x, starts);
      hide Lead, Concat;
      if starts(x) {
        StartCut(lead, g, x, s);
      } else if g == [] {
        NothingCut(s);
      } else {
        InnerCut(lead, g, x, s);
      }
    }
  }

  lemma StartCut<T>(lead: seq<T>, g: seq<Group<T>>, x: T, s: seq<T>)
    requires s != [] && lead + Concat(g) == Front(s) && x == Last(s)
    ensures lead + Concat(g + [Group(x, [])]) == s && lead != s
  {
    assert Front(g + [Group(x, [])]) == g;
    assert Concat(g + [Group(x, [])]) == Concat(g) + [x] + [] == Concat(g) + [x];
    hide Concat;
    assert lead + (Concat(g) + [x]) == lead + Concat(g) + [x] == s;
    assert |lead| <= |Front(s)|;
  }

  lemma NothingCut<T>(s: seq<T>)
    ensures s + Concat([]) == s
  {
  }

  lemma InnerCut<T>(lead: seq<T>, g: seq<Group<T>>, x: T, s: seq<T>)
    requires s != [] && g != [] && lead + Concat(g) == Front(s) && x == Last(s)
    ensures lead + Concat(Front(g) + [Last(g).Add(x)]) == s && lead != s
  {
    ConcatAdd(g, x);
    hide Concat;
    assert lead + (Concat(g) + [x]) == lead + Concat(g) + [x] == s;
    assert |lead| <= |Front(s)|;
  }

  lemma ConcatAdd<T>(g: seq<Group<T>>, x: T)
    requires g != []
    ensures Concat(Front(g) + [Last(g).Add(x)]) == Concat(g) + [x]
  {
    assert Front(Front(g) + [Last(g).Add(x)]) == Front(g);
    assert Concat(Front(g)) + [Last(g).head] + (Last(g).tail + [x]) == Concat(Front(g)) + [Last(g).head] + Last(g).tail + [x];
  }

  /** No group holds a second start. */
  lemma {:induction false} GroupsHaveOneStart<T>(s: seq<T>, starts: T -> bool, i: nat, j: nat)
    requires i < |Groups(s, starts)| && j < |Groups(s, starts)[i].tail|
    ensures !starts(Groups(s, starts)[i].tail[j])
  {
    var g := Groups(Front(s), starts);
    if i < |g| && j < |g[i].tail| {
      GroupsHaveOneStart(Front(s), starts, i, j);
    }
  }

  lemma {:induction false} LeadOneMore<T>(s: seq<T>, x: T, starts: T -> bool)
    ensures Lead(s + [x], starts) ==
            if Lead(s, starts) == s && !starts(x) then s + [x] else Lead(s, starts)
  {
    if s == [] {
      assert [x][1..] == [];
    } else {
      assert (s + [x])[1..] == s[1..] + [x];
      assert s == [s[0]] + s[1..];
      if !starts(s[0]) {
        LeadOneMore(s[1..], x, starts);
        assert Lead(s, starts) == s <==> Lead(s[1..], starts) == s[1..];
      }
    }
  }

  // ---------- The parts of a protocol ----------

  type Lines = seq<Described>
  type LineGroup = Group<Described>

  predicate StartsDomain(d: Described) { d.line.DomainLine? }
  predicate StartsElement(d: Described) { d.line.TypeLine? || d.line.CommandLine? || d.line.EventLine? }
  predicate StartsSection(d: Described) { d.line.SectionLine? }
  predicate StartsParam(d: Described) { d.line.ParamLine? }
  predicate StartsVersion(d: Described) { d.line.VersionLine? }

  function Variants(lines: Lines): seq<Variant> {
    if lines == [] then []
    else
      var d := Last(lines);
      Variants(Front(lines)) + if d.line.LiteralLine? then [Variant(d.description, d.line.name)] else []
  }

  function ParamOf(g: LineGroup): Param
    requires StartsParam(g.head)
  {
    var line := g.head.line;
    var ty := if line.base == "enum" && !line.isArray then Enum(Variants(g.tail)) else NewType(line.base, line.isArray);
    Param(g.head.description, line.flags, line.optional, ty, line.name, g.head.domain + "." + line.name)
  }

  function ParamsOf(groups: seq<LineGroup>): (r: seq<Param>)
    requires AllStart(groups, StartsParam)
    ensures |r| == |groups|
  {
    if groups == [] then [] else ParamsOf(Front(groups)) + [ParamOf(Last(groups))]
  }

  /** The parameters of one section. */
  function SectionParams(section: LineGroup): seq<Param> {
    ParamsOf(Groups(section.tail, StartsParam))
  }

  /** Two readings of the lines: as they declare the protocol, all sections of an element counting; or as the parser builds
    * it, of several sections of one kind only the last counting, and an early section being taken over. */
  datatype Reading = Declared | Built

  /** The parameters that the sections of one kind declare. */
  function ParamsIn(sections: seq<LineGroup>, kind: Section, reading: Reading): seq<Param>
    requires AllStart(sections, StartsSection)
  {
    if sections == [] then []
    else if Last(sections).head.line.section != kind then ParamsIn(Front(sections), kind, reading)
    else if reading.Declared? then ParamsIn(Front(sections), kind, reading) + SectionParams(Last(sections))
    else SectionParams(Last(sections))
  }

  predicate HasSection(sections: seq<LineGroup>, kind: Section)
    requires AllStart(sections, StartsSection)
  {
    exists i :: 0 <= i < |sections| && sections[i].head.line.section == kind
  }

  predicate HasEnum(lines: Lines) {
    exists i :: 0 <= i < |lines| && lines[i].line.EnumLine?
  }

  function LastRedirect(lines: Lines): Option<Redirect> {
    if lines == [] then None
    else if Last(lines).line.RedirectLine? then Some(Redirect(Last(lines).description, Last(lines).line.domain, None))
    else LastRedirect(Front(lines))
  }

  function ItemOf(lines: Lines, sections: seq<LineGroup>, reading: Reading): Option<Item>
    requires AllStart(sections, StartsSection)
  {
    if HasEnum(lines) then Some(EnumItem(Variants(lines)))
    else if HasSection(sections, Properties) then Some(PropertiesItem(ParamsIn(sections, Properties, reading)))
    else None
  }

  /** The element of a group of lines, with those of its sections that count. */
  function ElementWith(g: LineGroup, sections: seq<LineGroup>, reading: Reading): Element
    requires StartsElement(g.head) && AllStart(sections, StartsSection)
  {
    var description := g.head.description;
    var raw := g.head.domain + "." + g.head.line.name;
    match g.head.line
    case TypeLine(flags, name, isArray, base) =>
      TypeElement(TypeDef(description, flags, name, NewType(base, isArray), ItemOf(g.tail, sections, reading), raw))
    case CommandLine(flags, name) =>
      CommandElement(Command(description, flags, name, LastRedirect(g.tail),
                             ParamsIn(sections, Parameters, reading), ParamsIn(sections, Returns, reading), raw))
    case EventLine(flags, name) =>
      EventElement(Event(description, flags, name, ParamsIn(sections, Parameters, reading), raw))
  }

  function ElementOf(g: LineGroup, reading: Reading): Element
    requires StartsElement(g.head)
  {
    ElementWith(g, Groups(g.tail, StartsSection), reading)
  }

  function ElementsOf(groups: seq<LineGroup>, reading: Reading): (r: seq<Element>)
    requires AllStart(groups, StartsElement)
    ensures |r| == |groups|
  {
    if groups == [] then [] else ElementsOf(Front(groups), reading) + [ElementOf(Last(groups), reading)]
  }

  function TypesIn(elements: seq<Element>): seq<TypeDef> {
    if elements == [] then []
    else TypesIn(Front(elements)) + if Last(elements).TypeElement? then [Last(elements).typeDef] else []
  }

  function CommandsIn(elements: seq<Element>): seq<Command> {
    if elements == [] then []
    else CommandsIn(Front(elements)) + if Last(elements).CommandElement? then [Last(elements).command] else []
  }

  function EventsIn(elements: seq<Element>): seq<Event> {
    if elements == [] then []
    else EventsIn(Front(elements)) + if Last(elements).EventElement? then [Last(elements).event] else []
  }

  function Dependencies(lines: Lines): seq<string> {
    if lines == [] then []
    else Dependencies(Front(lines)) + if Last(lines).line.DependsLine? then [Last(lines).line.domain] else []
  }

  function DomainWith(g: LineGroup, elements: seq<Element>): Domain
    requires StartsDomain(g.head)
  {
    Domain(g.head.description, g.head.line.flags, g.head.line.name, Dependencies(g.tail),
           TypesIn(elements), CommandsIn(elements), EventsIn(elements))
  }

  // ---------- Early sections ----------

  /** What is held of an early section after one more line: its header, parameters and literals. */
  function HoldOneMore(held: Lines, d: Described): Lines {
    if held == [] then (if StartsSection(d) then [d] else [])
    else if d.line.ParamLine? || d.line.LiteralLine? then held + [d]
    else held
  }

  /** What is held after lines that open no element: the section that came too early, if there is one. */
  function Hold(held: Lines, lines: Lines): Lines {
    if lines == [] then held else HoldOneMore(Hold(held, Front(lines)), Last(lines))
  }

  /** An early section is held until an element takes it over. */
  function HoldAfter(held: Lines, domain: LineGroup): Lines {
    if Groups(domain.tail, StartsElement) == [] then Hold(held, domain.tail) else []
  }

  /** What is held at the end of these domains, the first of which comes after the lines `start`. */
  function HeldAfter(start: Lines, domains: seq<LineGroup>): Lines {
    if domains == [] then Hold([], start) else HoldAfter(HeldAfter(start, Front(domains)), Last(domains))
  }

  /** What the first element of a domain takes over. */
  function TakenOver(domain: LineGroup, held: Lines): Lines {
    Hold(held, Lead(domain.tail, StartsElement))
  }

  /** The elements of a domain. In the reading of the parser, the first one takes over the early section. */
  function ElementGroups(domain: LineGroup, held: Lines, reading: Reading): (r: seq<LineGroup>)
    ensures AllStart(r, StartsElement)
    ensures |r| == |Groups(domain.tail, StartsElement)|
  {
    var elements := Groups(domain.tail, StartsElement);
    if elements == [] || reading.Declared? then elements
    else elements[0 := Group(elements[0].head, TakenOver(domain, held) + elements[0].tail)]
  }

  function DomainOf(domain: LineGroup, held: Lines, reading: Reading): Domain
    requires StartsDomain(domain.head)
  {
    DomainWith(domain, ElementsOf(ElementGroups(domain, held, reading), reading))
  }

  function DomainsOf(start: Lines, domains: seq<LineGroup>, reading: Reading): (r: seq<Domain>)
    requires AllStart(domains, StartsDomain)
    ensures |r| == |domains|
  {
    if domains == [] then []
    else
      var held := HeldAfter(start, Front(domains));
      DomainsOf(start, Front(domains), reading) + [DomainOf(Last(domains), held, reading)]
  }

  function LastMajor(lines: Lines): nat {
    if lines == [] then 0 else if Last(lines).line.MajorLine? then Last(lines).line.number else LastMajor(Front(lines))
  }

  function LastMinor(lines: Lines): nat {
    if lines == [] then 0 else if Last(lines).line.MinorLine? then Last(lines).line.number else LastMinor(Front(lines))
  }

  /** The version that the last version line declares. */
  function VersionOf(lines: Lines): Option<Version> {
    var groups := Groups(lines, StartsVersion);
    if groups == [] then None else Some(Version(LastMajor(Last(groups).tail), LastMinor(Last(groups).tail)))
  }

  /** The description of the last version line. */
  function HeadingOf(lines: Lines): Option<string> {
    var groups := Groups(lines, StartsVersion);
    if groups == [] then None else Last(groups).head.description
  }

  /** The protocol that the lines describe, if they declare a version. */
  function Grouped(lines: seq<Line>, reading: Reading): Option<Protocol> {
    var described := Describe(lines);
    match VersionOf(described)
    case None => None
    case Some(version) =>
      var start, domains := Lead(described, StartsDomain), Groups(described, StartsDomain);
      Some(Protocol(HeadingOf(described), version, DomainsOf(start, domains, reading)))
  }
}
