/** The one-pass parser builds what grouping the lines gives. */
module PdlAgreement {
  import opened Options
  import opened Sequences
  import opened Pdl
  import opened PdlParserSpec
  import opened PdlGrouping

  // ---------- What the parser holds after some lines ----------

  /** An enumeration type that is given a section is never accepted. */
  predicate Doomed(s: Parser) {
    && s.domains != [] && s.member.Some?
    && s.element.Some? && s.element.value.TypeElement? && s.element.value.typeDef.item.Some?
  }

  /** The open section has its parameters so far. */
  predicate MemberAgrees(member: Option<Member>, memberEnum: bool, section: LineGroup)
    requires StartsSection(section.head)
  {
    && member == Some(Member(section.head.line.section, SectionParams(section)))
    && (member.value.params != [] && Last(member.value.params).ty.Enum? ==> memberEnum)
  }

  /** The open element has its closed sections, and the open section its parameters so far. */
  predicate ElementAgrees(e: Element, member: Option<Member>, memberEnum: bool, g: LineGroup)
    requires StartsElement(g.head)
  {
    var sections := Groups(g.tail, StartsSection);
    if sections == [] then
      && member.None? && e == ElementWith(g, [], Built)
      && (HasEnum(g.tail) ==> g.head.line.TypeLine?)
      && (!HasEnum(g.tail) ==> Variants(g.tail) == [])
    else
      && MemberAgrees(member, memberEnum, Last(sections))
      && e == ElementWith(g, Front(sections), Built)
      && !HasEnum(g.tail)
  }

  /** Lines that are held begin with a section header. Parameters and literals follow. */
  predicate WellHeld(held: Lines) {
    held != [] ==>
      && StartsSection(held[0])
      && forall i | 1 <= i < |held| :: held[i].line.ParamLine? || held[i].line.LiteralLine?
  }

  /** Without an element, the open section is the one that is held. */
  predicate HeldAgrees(member: Option<Member>, memberEnum: bool, held: Lines) {
    && WellHeld(held)
    && if held == [] then member.None? else MemberAgrees(member, memberEnum, Group(held[0], held[1..]))
  }

  /** The last domain has its closed elements. */
  predicate DomainAgrees(s: Parser, d: LineGroup, held: Lines)
    requires StartsDomain(d.head) && s.domains != []
  {
    var elements := ElementGroups(d, held, Built);
    if elements == [] then
      && s.element.None? && Last(s.domains) == DomainWith(d, [])
      && HeldAgrees(s.member, s.memberEnum, Hold(held, d.tail))
    else
      && s.element.Some? && Last(s.domains) == DomainWith(d, ElementsOf(Front(elements), Built))
      && ElementAgrees(s.element.value, s.member, s.memberEnum, Last(elements))
  }

  predicate DomainsAgree(s: Parser, start: Lines, domains: seq<LineGroup>)
    requires AllStart(domains, StartsDomain)
  {
    && |s.domains| == |domains|
    && if domains == [] then s.element.None? && HeldAgrees(s.member, s.memberEnum, Hold([], start))
       else
         && Front(s.domains) == DomainsOf(start, Front(domains), Built)
         && DomainAgrees(s, Last(domains), HeldAfter(start, Front(domains)))
  }

  predicate AgreesOn(s: Parser, lines: Lines) {
    DomainsAgree(s, Lead(lines, StartsDomain), Groups(lines, StartsDomain))
  }

  predicate Agrees(s: Parser, lines: seq<Line>) {
    && s.pending == PendingAfter(lines)
    && s.version == VersionOf(Describe(lines)) && s.description == HeadingOf(Describe(lines))
    && (s.domains != [] ==> Last(s.domains).name == DomainAfter(lines))
    && AgreesOn(s, Describe(lines))
  }

  // ---------- One more line in a group ----------

  lemma GroupsOneMore<T>(s: seq<T>, x: T, starts: T -> bool)
    ensures var g := Groups(s, starts);
            Groups(s + [x], starts) ==
              if starts(x) then g + [Group(x, [])] else if g == [] then [] else Front(g) + [Last(g).Add(x)]
  {
    assert Front(s + [x]) == s;
  }

  lemma LinesOneMore(lines: Lines, d: Described)
    ensures Variants(lines + [d]) ==
            Variants(lines) + if d.line.LiteralLine? then [Variant(d.description, d.line.name)] else []
    ensures LastRedirect(lines + [d]) ==
            if d.line.RedirectLine? then Some(Redirect(d.description, d.line.domain, None)) else LastRedirect(lines)
    ensures HasEnum(lines + [d]) <==> HasEnum(lines) || d.line.EnumLine?
    ensures Dependencies(lines + [d]) == Dependencies(lines) + if d.line.DependsLine? then [d.line.domain] else []
  {
    assert Front(lines + [d]) == lines;
    assert (lines + [d])[|lines|] == d;
    if i :| 0 <= i < |lines| && lines[i].line.EnumLine? {
      assert (lines + [d])[i] == lines[i];
    }
  }

  // ---------- Closing a section ----------

  lemma SectionsOneMore(sections: seq<LineGroup>, kind: Section)
    requires AllStart(sections, StartsSection) && sections != []
    ensures AllStart(Front(sections), StartsSection)
    ensures HasSection(sections, kind) <==> HasSection(Front(sections), kind) || Last(sections).head.line.section == kind
    ensures ParamsIn(sections, kind, Built) ==
            if Last(sections).head.line.section == kind then SectionParams(Last(sections))
            else ParamsIn(Front(sections), kind, Built)
  {
    if i :| 0 <= i < |sections| && sections[i].head.line.section == kind {
      assert i < |sections| - 1 ==> Front(sections)[i] == sections[i];
    }
  }

  /** Attaching the open section gives the element with all its sections. */
  lemma AddMemberAgrees(g: LineGroup, sections: seq<LineGroup>)
    requires StartsElement(g.head) && AllStart(sections, StartsSection) && sections != [] && !HasEnum(g.tail)
    requires AllStart(Front(sections), StartsSection)
    ensures var m := Member(Last(sections).head.line.section, SectionParams(Last(sections)));
            var added := AddMember(ElementWith(g, Front(sections), Built), m);
            added.Ok? ==> added.value == ElementWith(g, sections, Built)
  {
    hide SectionParams, ParamsIn, HasSection, HasEnum, LastRedirect, Variants, NewType;
    SectionsOneMore(sections, Parameters);
    SectionsOneMore(sections, Returns);
    SectionsOneMore(sections, Properties);
  }

  // ---------- One more line in an element ----------

  /** Lines that only concern what is outside of elements, or nothing at all. */
  predicate Neutral(line: Line) {
    line.Comment? || line.Blank? || line.DependsLine? || line.VersionLine? || line.MajorLine? || line.MinorLine?
  }

  lemma NeutralInMember(member: Option<Member>, memberEnum: bool, section: LineGroup, d: Described)
    requires StartsSection(section.head) && MemberAgrees(member, memberEnum, section)
    requires !d.line.ParamLine? && !d.line.LiteralLine?
    ensures MemberAgrees(member, memberEnum, section.Add(d))
  {
    NeutralInSection(section, d);
  }

  lemma ParamInMember(m: Member, memberEnum: bool, section: LineGroup, d: Described, param: Param)
    requires StartsSection(section.head) && MemberAgrees(Some(m), memberEnum, section) && d.line.ParamLine?
    requires param == Param(d.description, d.line.flags, d.line.optional, NewType(d.line.base, d.line.isArray), d.line.name,
                            d.domain + "." + d.line.name)
    ensures MemberAgrees(Some(m.(params := m.params + [param])), memberEnum || d.line.base == "enum", section.Add(d))
  {
    ParamInSection(section, d, param);
  }

  lemma VariantInMember(m: Member, memberEnum: bool, section: LineGroup, d: Described)
    requires StartsSection(section.head) && MemberAgrees(Some(m), memberEnum, section) && d.line.LiteralLine?
    requires m.params != [] && Last(m.params).ty.Enum? && memberEnum
    ensures var last := Last(m.params).(ty := Enum(Last(m.params).ty.variants + [Variant(d.description, d.line.name)]));
            MemberAgrees(Some(m.(params := Front(m.params) + [last])), memberEnum, section.Add(d))
  {
    VariantInSection(section, d);
  }

  lemma NeutralInElement(e: Element, member: Option<Member>, memberEnum: bool, g: LineGroup, d: Described)
    requires StartsElement(g.head) && ElementAgrees(e, member, memberEnum, g) && Neutral(d.line)
    ensures ElementAgrees(e, member, memberEnum, g.Add(d))
  {
    hide Groups, MemberAgrees, ParamsIn, HasSection, HasEnum, LastRedirect, Variants, NewType;
    var sections := Groups(g.tail, StartsSection);
    LinesOneMore(g.tail, d);
    assert Variants(g.tail) + [] == Variants(g.tail);
    GroupsOneMore(g.tail, d, StartsSection);
    if sections != [] {
      NeutralInMember(member, memberEnum, Last(sections), d);
      assert Front(Front(sections) + [Last(sections).Add(d)]) == Front(sections);
    }
  }

  lemma {:induction false} NeutralInSection(section: LineGroup, d: Described)
    requires !d.line.ParamLine? && !d.line.LiteralLine?
    ensures SectionParams(section.Add(d)) == SectionParams(section)
  {
    var params := Groups(section.tail, StartsParam);
    GroupsOneMore(section.tail, d, StartsParam);
    if params != [] {
      LinesOneMore(Last(params).tail, d);
      assert Variants(Last(params).tail) + [] == Variants(Last(params).tail);
      assert ParamOf(Last(params).Add(d)) == ParamOf(Last(params));
      assert Front(Front(params) + [Last(params).Add(d)]) == Front(params);
    }
  }

  lemma RedirectInElement(c: Command, member: Option<Member>, memberEnum: bool, g: LineGroup, d: Described)
    requires StartsElement(g.head) && ElementAgrees(CommandElement(c), member, memberEnum, g) && d.line.RedirectLine?
    ensures ElementAgrees(CommandElement(c.(redirect := Some(Redirect(d.description, d.line.domain, None)))),
                          member, memberEnum, g.Add(d))
  {
    hide Groups, MemberAgrees, ParamsIn, HasSection, HasEnum, LastRedirect, Variants, NewType;
    var sections := Groups(g.tail, StartsSection);
    LinesOneMore(g.tail, d);
    assert Variants(g.tail) + [] == Variants(g.tail);
    GroupsOneMore(g.tail, d, StartsSection);
    if sections != [] {
      NeutralInMember(member, memberEnum, Last(sections), d);
      assert Front(Front(sections) + [Last(sections).Add(d)]) == Front(sections);
    }
  }

  lemma EnumInElement(t: TypeDef, memberEnum: bool, g: LineGroup, d: Described)
    requires StartsElement(g.head) && ElementAgrees(TypeElement(t), None, memberEnum, g) && d.line.EnumLine?
    requires t.item.None?
    ensures ElementAgrees(TypeElement(t.(item := Some(EnumItem([])))), None, false, g.Add(d))
  {
    hide Groups, ParamsIn, HasSection, HasEnum, LastRedirect, Variants, NewType;
    LinesOneMore(g.tail, d);
    GroupsOneMore(g.tail, d, StartsSection);
  }

  lemma ParamInElement(e: Element, m: Member, memberEnum: bool, g: LineGroup, d: Described, param: Param)
    requires StartsElement(g.head) && ElementAgrees(e, Some(m), memberEnum, g) && d.line.ParamLine?
    requires param == Param(d.description, d.line.flags, d.line.optional, NewType(d.line.base, d.line.isArray), d.line.name,
                            d.domain + "." + d.line.name)
    ensures ElementAgrees(e, Some(m.(params := m.params + [param])), memberEnum || d.line.base == "enum", g.Add(d))
  {
    hide Groups, MemberAgrees, ParamsIn, HasSection, HasEnum, LastRedirect, Variants;
    var sections := Groups(g.tail, StartsSection);
    LinesOneMore(g.tail, d);
    GroupsOneMore(g.tail, d, StartsSection);
    assert Front(Front(sections) + [Last(sections).Add(d)]) == Front(sections);
    ParamInMember(m, memberEnum, Last(sections), d, param);
  }

  lemma ParamInSection(section: LineGroup, d: Described, param: Param)
    requires d.line.ParamLine?
    requires param == Param(d.description, d.line.flags, d.line.optional, NewType(d.line.base, d.line.isArray), d.line.name,
                            d.domain + "." + d.line.name)
    ensures SectionParams(section.Add(d)) == SectionParams(section) + [param]
  {
    var params := Groups(section.tail, StartsParam);
    GroupsOneMore(section.tail, d, StartsParam);
    assert Front(params + [Group(d, [])]) == params;
    assert ParamOf(Group(d, [])) == param;
  }

  /** A literal under an enumeration parameter. */
  lemma VariantInElement(e: Element, m: Member, memberEnum: bool, g: LineGroup, d: Described)
    requires StartsElement(g.head) && ElementAgrees(e, Some(m), memberEnum, g) && d.line.LiteralLine?
    requires m.params != [] && Last(m.params).ty.Enum? && memberEnum
    ensures var last := Last(m.params).(ty := Enum(Last(m.params).ty.variants + [Variant(d.description, d.line.name)]));
            ElementAgrees(e, Some(m.(params := Front(m.params) + [last])), memberEnum, g.Add(d))
  {
    hide Groups, MemberAgrees, ParamsIn, HasSection, HasEnum, LastRedirect, Variants, NewType;
    var sections := Groups(g.tail, StartsSection);
    LinesOneMore(g.tail, d);
    GroupsOneMore(g.tail, d, StartsSection);
    assert Front(Front(sections) + [Last(sections).Add(d)]) == Front(sections);
    VariantInMember(m, memberEnum, Last(sections), d);
  }

  lemma VariantInSection(section: LineGroup, d: Described)
    requires d.line.LiteralLine?
    requires var params := SectionParams(section); params != [] && Last(params).ty.Enum?
    ensures var params := SectionParams(section);
            var last := Last(params).(ty := Enum(Last(params).ty.variants + [Variant(d.description, d.line.name)]));
            SectionParams(section.Add(d)) == Front(params) + [last]
  {
    var groups := Groups(section.tail, StartsParam);
    GroupsOneMore(section.tail, d, StartsParam);
    VariantInParam(Last(groups), d);
    hide Groups, ParamOf;
    assert Front(Front(groups) + [Last(groups).Add(d)]) == Front(groups);
    assert Front(ParamsOf(groups)) == ParamsOf(Front(groups)) && Last(ParamsOf(groups)) == ParamOf(Last(groups));
  }

  lemma VariantInParam(param: LineGroup, d: Described)
    requires StartsParam(param.head) && ParamOf(param).ty.Enum? && d.line.LiteralLine?
    ensures ParamOf(param.Add(d)) ==
            ParamOf(param).(ty := Enum(ParamOf(param).ty.variants + [Variant(d.description, d.line.name)]))
  {
    LinesOneMore(param.tail, d);
  }

  /** A literal of an enumeration type. */
  lemma LiteralInElement(t: TypeDef, memberEnum: bool, g: LineGroup, d: Described)
    requires StartsElement(g.head) && ElementAgrees(TypeElement(t), None, memberEnum, g) && d.line.LiteralLine?
    requires t.item.Some? && t.item.value.EnumItem?
    ensures var variants := t.item.value.variants + [Variant(d.description, d.line.name)];
            ElementAgrees(TypeElement(t.(item := Some(EnumItem(variants)))), None, memberEnum, g.Add(d))
  {
    hide Groups, MemberAgrees, ParamsIn, HasEnum, LastRedirect, Variants, NewType;
    LinesOneMore(g.tail, d);
    GroupsOneMore(g.tail, d, StartsSection);
  }

  /** A section header closes the section before it. */
  lemma SectionInElement(e: Element, member: Option<Member>, memberEnum: bool, g: LineGroup, d: Described)
    requires StartsElement(g.head) && ElementAgrees(e, member, memberEnum, g) && d.line.SectionLine?
    requires !HasEnum(g.tail)
    ensures var added := if member.Some? then AddMember(e, member.value) else Ok(e);
            added.Ok? ==> ElementAgrees(added.value, Some(Member(d.line.section, [])), memberEnum, g.Add(d))
  {
    hide Groups, MemberAgrees, ParamsIn, HasSection, HasEnum, LastRedirect, Variants, NewType;
    var sections := Groups(g.tail, StartsSection);
    LinesOneMore(g.tail, d);
    GroupsOneMore(g.tail, d, StartsSection);
    assert Front(sections + [Group(d, [])]) == sections;
    EmptyMember(memberEnum, d);
    if sections != [] {
      assert AllStart(Front(sections), StartsSection);
      OpenMember(member, memberEnum, Last(sections));
      AddMemberAgrees(g, sections);
    }
  }

  lemma OpenMember(member: Option<Member>, memberEnum: bool, section: LineGroup)
    requires StartsSection(section.head) && MemberAgrees(member, memberEnum, section)
    ensures member == Some(Member(section.head.line.section, SectionParams(section)))
  {
  }

  lemma EmptySection(d: Described)
    ensures SectionParams(Group(d, [])) == []
  {
  }

  // ---------- One more line that is held ----------

  /** A line before any element: the open section, if there is one, stays the one that is held. */
  lemma HeldLineAgrees(s: Parser, held: Lines, d: Described, n: nat)
    requires s.element.None? && HeldAgrees(s.member, s.memberEnum, held)
    requires !StartsDomain(d) && !StartsElement(d) && (Takes(d.line) ==> d.description == s.pending)
    requires s.domains != [] ==> Last(s.domains).name == d.domain
    requires Step(s, d.line, n).Ok?
    ensures var s' := Step(s, d.line, n).value;
            s'.element.None? && HeldAgrees(s'.member, s'.memberEnum, HoldOneMore(held, d))
  {
    hide MemberAgrees, SectionParams, NewType;
    if held == [] {
      if d.line.SectionLine? {
        assert [d][1..] == [];
        EmptyMember(s.memberEnum, d);
      }
    } else {
      var section := Group(held[0], held[1..]);
      OpenMember(s.member, s.memberEnum, section);
      if d.line.ParamLine? {
        HeldParamAgrees(s, held, d, n);
      } else if d.line.LiteralLine? {
        HeldVariantAgrees(s, held, d, n);
      }
    }
  }

  lemma EmptyMember(memberEnum: bool, d: Described)
    requires d.line.SectionLine?
    ensures MemberAgrees(Some(Member(d.line.section, [])), memberEnum, Group(d, []))
  {
    EmptySection(d);
  }

  lemma HeldGrows(held: Lines, d: Described)
    requires held != [] && WellHeld(held) && (d.line.ParamLine? || d.line.LiteralLine?)
    ensures WellHeld(held + [d])
    ensures Group((held + [d])[0], (held + [d])[1..]) == Group(held[0], held[1..]).Add(d)
  {
    assert (held + [d])[1..] == held[1..] + [d];
  }

  lemma HeldParamAgrees(s: Parser, held: Lines, d: Described, n: nat)
    requires s.element.None? && HeldAgrees(s.member, s.memberEnum, held) && held != []
    requires d.line.ParamLine? && d.description == s.pending && (s.domains != [] ==> Last(s.domains).name == d.domain)
    requires OnParam(s, d.line, n).Ok?
    ensures var s' := OnParam(s, d.line, n).value;
            s'.element.None? && HeldAgrees(s'.member, s'.memberEnum, held + [d])
  {
    hide MemberAgrees;
    HeldGrows(held, d);
    var m := s.member.value;
    var param := Param(d.description, d.line.flags, d.line.optional, NewType(d.line.base, d.line.isArray), d.line.name,
                       d.domain + "." + d.line.name);
    ParamInMember(m, s.memberEnum, Group(held[0], held[1..]), d, param);
  }

  lemma HeldVariantAgrees(s: Parser, held: Lines, d: Described, n: nat)
    requires s.element.None? && HeldAgrees(s.member, s.memberEnum, held) && held != []
    requires d.line.LiteralLine? && d.description == s.pending && OnLiteral(s, d.line.name, n).Ok?
    ensures var s' := OnLiteral(s, d.line.name, n).value;
            s'.element.None? && HeldAgrees(s'.member, s'.memberEnum, held + [d])
  {
    hide MemberAgrees;
    HeldGrows(held, d);
    VariantInMember(s.member.value, s.memberEnum, Group(held[0], held[1..]), d);
  }

  // ---------- One more line in a domain ----------

  lemma {:induction false} LeadIsAll(lines: Lines, starts: Described -> bool)
    requires Groups(lines, starts) == []
    ensures Lead(lines, starts) == lines
  {
    GroupsCut(lines, starts);
  }

  /** Lines after the first start do not change what comes before it. */
  lemma LeadStays(lines: Lines, d: Described, starts: Described -> bool)
    ensures Lead(lines + [d], starts) ==
            if Groups(lines, starts) == [] && !starts(d) then lines + [d] else Lead(lines, starts)
  {
    GroupsCut(lines, starts);
    LeadOneMore(lines, d, starts);
  }

  lemma HoldGrows(held: Lines, lines: Lines, d: Described)
    ensures Hold(held, lines + [d]) == HoldOneMore(Hold(held, lines), d)
  {
    assert Front(lines + [d]) == lines;
  }

  /** One more line extends the last element of its domain, or starts a new one. */
  lemma ElementsOneMore(domain: LineGroup, held: Lines, d: Described)
    ensures var elements := ElementGroups(domain, held, Built);
            ElementGroups(domain.Add(d), held, Built) ==
              if StartsElement(d) then
                elements + [Group(d, if elements == [] then Hold(held, domain.tail) else [])]
              else if elements == [] then [] else Front(elements) + [Last(elements).Add(d)]
  {
    hide Groups, Lead, Hold;
    var plain := Groups(domain.tail, StartsElement);
    GroupsOneMore(domain.tail, d, StartsElement);
    LeadStays(domain.tail, d, StartsElement);
    if plain == [] {
      LeadIsAll(domain.tail, StartsElement);
      assert Hold(held, domain.tail) + [] == Hold(held, domain.tail);
    } else {
      var taken := TakenOver(domain, held);
      assert taken + (plain[0].tail + [d]) == taken + plain[0].tail + [d];
    }
  }

  /** The lines of the open element. */
  predicate InElement(lines: Lines, g: LineGroup) {
    var start, domains := Lead(lines, StartsDomain), Groups(lines, StartsDomain);
    && domains != []
    && var elements := ElementGroups(Last(domains), HeldAfter(start, Front(domains)), Built);
       elements != [] && g == Last(elements)
  }

  predicate DependsOnly(s: Parser, s': Parser, d: Described) {
    && (s.domains == [] ==> s'.domains == [])
    && (s.domains != [] ==>
          && s'.domains != [] && Front(s'.domains) == Front(s.domains)
          && Last(s'.domains) == Last(s.domains).(dependencies := Last(s.domains).dependencies +
                                                    if d.line.DependsLine? then [d.line.domain] else []))
  }

  /** The parser's open element is that of the lines `g`. Without one, `held` is what is held. */
  predicate Open(s: Parser, g: LineGroup, held: Lines) {
    && StartsElement(g.head)
    && if s.element.Some? then s.domains != [] && ElementAgrees(s.element.value, s.member, s.memberEnum, g)
       else HeldAgrees(s.member, s.memberEnum, held)
  }

  /** The line changed no more than what is open, and that in the right way. */
  predicate Follows(s: Parser, s': Parser, d: Described, g: LineGroup, held: Lines) {
    && StartsElement(g.head) && DependsOnly(s, s', d)
    && if s.element.Some? then s'.element.Some? && ElementAgrees(s'.element.value, s'.member, s'.memberEnum, g.Add(d))
       else s'.element.None? && HeldAgrees(s'.member, s'.memberEnum, HoldOneMore(held, d))
  }

  predicate IsOpen(s: Parser, lines: Lines, g: LineGroup, held: Lines) {
    if s.element.Some? then InElement(lines, g) else IsHeld(lines, held)
  }

  /** What a line changed about the open element or section decides, if it starts neither a domain nor an element. */
  lemma InnerLineAgrees(s: Parser, s': Parser, lines: Lines, d: Described, g: LineGroup, held: Lines)
    requires AgreesOn(s, lines) && !StartsDomain(d) && !StartsElement(d)
    requires IsOpen(s, lines, g, held) && Follows(s, s', d, g, held)
    ensures AgreesOn(s', lines + [d])
  {
    hide Groups, Lead, ElementAgrees, HeldAgrees, DomainAgrees, ElementGroups, Hold, DomainsOf, WellHeld;
    var start, domains := Lead(lines, StartsDomain), Groups(lines, StartsDomain);
    GroupsOneMore(lines, d, StartsDomain);
    LeadStays(lines, d, StartsDomain);
    if domains == [] {
      LeadIsAll(lines, StartsDomain);
      HoldGrows([], start, d);
    } else {
      assert Front(Front(domains) + [Last(domains).Add(d)]) == Front(domains);
      InnerLineInDomain(s, s', Last(domains), HeldAfter(start, Front(domains)), d, g, held);
    }
  }

  /** The section that is held after these lines, which leave no element open. */
  predicate IsHeld(lines: Lines, held: Lines) {
    held == HeldAfter(Lead(lines, StartsDomain), Groups(lines, StartsDomain))
  }

  lemma InnerLineInDomain(s: Parser, s': Parser, domain: LineGroup, before: Lines, d: Described, g: LineGroup, held: Lines)
    requires StartsDomain(domain.head) && s.domains != [] && DomainAgrees(s, domain, before)
    requires !StartsDomain(d) && !StartsElement(d) && DependsOnly(s, s', d)
    requires s.element.None? ==>
      held == HoldAfter(before, domain) && s'.element.None? && HeldAgrees(s'.member, s'.memberEnum, HoldOneMore(held, d))
    requires s.element.Some? ==>
      && ElementGroups(domain, before, Built) != [] && g == Last(ElementGroups(domain, before, Built))
      && s'.element.Some? && StartsElement(g.head)
      && ElementAgrees(s'.element.value, s'.member, s'.memberEnum, g.Add(d))
    ensures DomainAgrees(s', domain.Add(d), before)
  {
    var elements := ElementGroups(domain, before, Built);
    ElementsOneMore(domain, before, d);
    LinesOneMore(domain.tail, d);
    hide ElementGroups, ElementAgrees, HeldAgrees, TypesIn, CommandsIn, EventsIn, ElementsOf, Dependencies, WellHeld,
      TakenOver, HoldOneMore;
    if elements == [] {
      HoldGrows(before, domain.tail, d);
      assert held == Hold(before, domain.tail);
    } else {
      assert Front(Front(elements) + [Last(elements).Add(d)]) == Front(elements);
    }
  }

  /** Putting a finished element into its domain. */
  lemma ConsumedAgrees(d: LineGroup, elements: seq<Element>, e: Element)
    requires StartsDomain(d.head)
    ensures Consumed(DomainWith(d, elements), e) == DomainWith(d, elements + [e])
  {
    assert Front(elements + [e]) == elements;
    assert TypesIn(elements) + [] == TypesIn(elements);
    assert CommandsIn(elements) + [] == CommandsIn(elements);
    assert EventsIn(elements) + [] == EventsIn(elements);
  }

  lemma ElementClosed(e: Element, member: Option<Member>, memberEnum: bool, g: LineGroup)
    requires StartsElement(g.head) && ElementAgrees(e, member, memberEnum, g)
    ensures var added := if member.Some? then AddMember(e, member.value) else Ok(e);
            added.Ok? ==> added.value == ElementOf(g, Built)
  {
    hide Groups, ElementWith, HasEnum, Variants, AddMember, SectionParams;
    var sections := Groups(g.tail, StartsSection);
    if sections != [] {
      assert AllStart(Front(sections), StartsSection);
      AddMemberAgrees(g, sections);
    }
  }

  /** Closing gives all domains so far. A section that is held stays open. */
  lemma CloseAgrees(s: Parser, lines: Lines)
    requires AgreesOn(s, lines) && Close(s).Ok?
    ensures var s' := Close(s).value;
            var start, domains := Lead(lines, StartsDomain), Groups(lines, StartsDomain);
            && s'.domains == DomainsOf(start, domains, Built) && s'.element.None?
            && HeldAgrees(s'.member, s'.memberEnum, HeldAfter(start, domains))
            && s' == s.(domains := s'.domains, element := None, member := s'.member)
  {
    hide Groups, Lead, ElementAgrees, HeldAgrees, DomainAgrees, ElementGroups, Hold, AddMember, Consumed, DomainOf;
    var start, domains := Lead(lines, StartsDomain), Groups(lines, StartsDomain);
    if domains != [] {
      CloseInDomain(s, Last(domains), HeldAfter(start, Front(domains)));
      assert s.domains == Front(s.domains) + [Last(s.domains)];
    }
  }

  lemma CloseInDomain(s: Parser, domain: LineGroup, held: Lines)
    requires StartsDomain(domain.head) && s.domains != [] && DomainAgrees(s, domain, held) && Close(s).Ok?
    ensures var s' := Close(s).value;
            && s'.domains == Front(s.domains) + [DomainOf(domain, held, Built)] && s'.element.None?
            && HeldAgrees(s'.member, s'.memberEnum, HoldAfter(held, domain))
            && s' == s.(domains := s'.domains, element := None, member := s'.member)
  {
    hide ElementAgrees, AddMember, ElementOf, DomainWith, Consumed, MemberAgrees;
    var elements := ElementGroups(domain, held, Built);
    assert s.domains == Front(s.domains) + [Last(s.domains)];
    if elements != [] {
      ElementClosed(s.element.value, s.member, s.memberEnum, Last(elements));
      ConsumedAgrees(domain, ElementsOf(Front(elements), Built), ElementOf(Last(elements), Built));
    }
  }

  lemma DomainLineAgrees(s: Parser, lines: Lines, d: Described, n: nat)
    requires AgreesOn(s, lines) && d.line.DomainLine? && d.description == s.pending && Step(s, d.line, n).Ok?
    ensures AgreesOn(Step(s, d.line, n).value, lines + [d])
  {
    hide Close, DomainAgrees, Groups, Lead, DomainsOf, HeldAfter, HeldAgrees;
    var start, domains := Lead(lines, StartsDomain), Groups(lines, StartsDomain);
    CloseAgrees(s, lines);
    var s' := Step(s, d.line, n).value;
    NewDomainAgrees(s', d, HeldAfter(start, domains));
    GroupsOneMore(lines, d, StartsDomain);
    LeadStays(lines, d, StartsDomain);
    assert Front(domains + [Group(d, [])]) == domains;
    assert Front(s'.domains) == DomainsOf(start, domains, Built);
  }

  lemma NewDomainAgrees(s: Parser, d: Described, held: Lines)
    requires StartsDomain(d) && s.domains != [] && s.element.None? && HeldAgrees(s.member, s.memberEnum, held)
    requires Last(s.domains) == Domain(d.description, d.line.flags, d.line.name, [], [], [], [])
    ensures DomainAgrees(s, Group(d, []), held)
  {
    hide HeldAgrees;
  }

  lemma ElementLineAgrees(s: Parser, lines: Lines, d: Described, n: nat)
    requires AgreesOn(s, lines) && StartsElement(d) && d.description == s.pending && OnElement(s, d.line, n).Ok?
    requires s.domains != [] ==> Last(s.domains).name == d.domain
    ensures AgreesOn(OnElement(s, d.line, n).value, lines + [d])
  {
    hide Close, OpenElement, DomainAgrees, DomainOf, Groups, Lead, HeldAgrees, HeldAfter;
    var start, domains := Lead(lines, StartsDomain), Groups(lines, StartsDomain);
    var s1 := Close(s).value;
    var s' := OnElement(s, d.line, n).value;
    ClosingKeepsName(s);
    CloseAgrees(s, lines);
    GroupsOneMore(lines, d, StartsDomain);
    LeadStays(lines, d, StartsDomain);
    assert Front(Front(domains) + [Last(domains).Add(d)]) == Front(domains);
    assert s'.domains == DomainsOf(start, domains, Built);
    var before := HeldAfter(start, Front(domains));
    assert Front(s'.domains) == DomainsOf(start, Front(domains), Built);
    assert Last(s'.domains) == DomainOf(Last(domains), before, Built);
    HeldInLast(start, domains);
    NewElementInDomain(s1, s', Last(domains), before, d);
  }

  lemma HeldInLast(start: Lines, domains: seq<LineGroup>)
    requires domains != []
    ensures HeldAfter(start, domains) == HoldAfter(HeldAfter(start, Front(domains)), Last(domains))
  {
  }

  lemma ClosingKeepsName(s: Parser)
    requires s.domains != [] && Close(s).Ok?
    ensures Close(s).value.domains != [] && Last(Close(s).value.domains).name == Last(s.domains).name
  {
  }

  lemma NewElementInDomain(s: Parser, s': Parser, domain: LineGroup, before: Lines, d: Described)
    requires StartsDomain(domain.head) && StartsElement(d) && d.description == s.pending
    requires s.domains != [] && Last(s.domains) == DomainOf(domain, before, Built) && s.element.None?
    requires Last(s.domains).name == d.domain && HeldAgrees(s.member, s.memberEnum, HoldAfter(before, domain))
    requires s' == s.(element := Some(OpenElement(s, d.line)), pending := None)
    ensures DomainAgrees(s', domain.Add(d), before)
  {
    var elements := ElementGroups(domain, before, Built);
    var held := if elements == [] then Hold(before, domain.tail) else [];
    NewElementAgrees(s, held, d);
    ElementsOneMore(domain, before, d);
    LinesOneMore(domain.tail, d);
    hide TypesIn, CommandsIn, EventsIn, NewType, OpenElement, ElementGroups, ElementAgrees, HeldAgrees, MemberAgrees,
      Dependencies, Hold;
    assert Dependencies(domain.tail) + [] == Dependencies(domain.tail);
    assert Front(elements + [Group(d, held)]) == elements;
  }

  /** A new element has no sections of its own yet. It takes over the one that is held. */
  lemma NewElementAgrees(s: Parser, held: Lines, d: Described)
    requires StartsElement(d) && s.domains != [] && Last(s.domains).name == d.domain && s.pending == d.description
    requires HeldAgrees(s.member, s.memberEnum, held)
    ensures ElementAgrees(OpenElement(s, d.line), s.member, s.memberEnum, Group(d, held))
  {
    OpenedIsBare(s, d, held);
    HeldHasOneSection(held);
    hide MemberAgrees, NewType, Variants, OpenElement, ElementWith, Groups, HasEnum, WellHeld;
    if held == [] {
      NoVariants();
    } else {
      assert Front([Group(held[0], held[1..])]) == [];
    }
  }

  lemma OpenedIsBare(s: Parser, d: Described, held: Lines)
    requires StartsElement(d) && s.domains != [] && Last(s.domains).name == d.domain && s.pending == d.description
    requires WellHeld(held)
    ensures OpenElement(s, d.line) == ElementWith(Group(d, held), [], Built)
  {
    HeldHasOneSection(held);
    hide NewType, HasEnum, LastRedirect, Groups, WellHeld, Variants;
  }

  lemma NoVariants()
    ensures Variants([]) == []
  {
  }

  function HeldSections(held: Lines): seq<LineGroup> {
    if held == [] then [] else [Group(held[0], held[1..])]
  }

  lemma {:induction false} HeldHasOneSection(held: Lines)
    requires WellHeld(held)
    ensures Groups(held, StartsSection) == HeldSections(held)
    ensures !HasEnum(held) && LastRedirect(held).None?
  {
    if held != [] {
      var front, d := Front(held), Last(held);
      assert held == front + [d];
      WellHeldFront(held);
      LinesOneMore(front, d);
      HeldOneMore(front, d);
      hide Groups, HasEnum, LastRedirect, Variants, WellHeld, StartsSection;
      HeldHasOneSection(front);
    }
  }

  lemma HeldOneMore(front: Lines, d: Described)
    requires StartsSection(d) <==> front == []
    ensures Groups(front, StartsSection) == HeldSections(front) ==>
              Groups(front + [d], StartsSection) == HeldSections(front + [d])
  {
    GroupsOneMore(front, d, StartsSection);
    hide Groups, StartsSection;
    if front == [] {
      assert front + [d] == [d] && [d][1..] == [];
    } else {
      assert (front + [d])[1..] == front[1..] + [d];
      assert Front(HeldSections(front)) == [];
    }
  }

  lemma WellHeldFront(held: Lines)
    requires held != [] && WellHeld(held)
    ensures WellHeld(Front(held)) && StartsSection(held[0])
    ensures |held| > 1 ==> Last(held).line.ParamLine? || Last(held).line.LiteralLine?
  {
  }

  // ---------- One more line ----------

  lemma OpenElementAgrees(s: Parser, lines: Lines) returns (g: LineGroup, held: Lines)
    requires AgreesOn(s, lines)
    ensures IsOpen(s, lines, g, held) && Open(s, g, held)
  {
    hide ElementAgrees, HeldAgrees, Groups, Lead;
    var start, domains := Lead(lines, StartsDomain), Groups(lines, StartsDomain);
    held := HeldAfter(start, domains);
    g := Group(Described(EventLine(Flags(false, false), ""), None, ""), []);
    if s.element.Some? {
      g := Last(ElementGroups(Last(domains), HeldAfter(start, Front(domains)), Built));
    }
  }

  predicate NamesDomain(s: Parser, d: Described) {
    s.domains != [] ==> Last(s.domains).name == d.domain
  }

  lemma SameDomains(s: Parser, s': Parser, d: Described)
    requires s'.domains == s.domains && !d.line.DependsLine?
    ensures DependsOnly(s, s', d)
  {
    if s.domains != [] {
      assert Last(s.domains).dependencies + [] == Last(s.domains).dependencies;
    }
  }

  lemma NeutralLineFollows(s: Parser, g: LineGroup, held: Lines, d: Described, n: nat)
    requires Open(s, g, held) && Neutral(d.line) && NamesDomain(s, d) && (Takes(d.line) ==> d.description == s.pending)
    requires Step(s, d.line, n).Ok?
    ensures Follows(s, Step(s, d.line, n).value, d, g, held)
  {
    hide ElementAgrees, HeldAgrees, HoldOneMore;
    if s.element.Some? {
      NeutralInElement(s.element.value, s.member, s.memberEnum, g, d);
    } else {
      HeldLineAgrees(s, held, d, n);
    }
    if s.domains != [] {
      assert Last(s.domains).dependencies + [] == Last(s.domains).dependencies;
    }
  }

  lemma ParamLineFollows(s: Parser, g: LineGroup, held: Lines, d: Described, n: nat)
    requires Open(s, g, held) && d.line.ParamLine? && d.description == s.pending && NamesDomain(s, d)
    requires OnParam(s, d.line, n).Ok?
    ensures Follows(s, OnParam(s, d.line, n).value, d, g, held)
  {
    hide ElementAgrees, HeldAgrees, HoldOneMore, DependsOnly, NewType;
    var s' := OnParam(s, d.line, n).value;
    SameDomains(s, s', d);
    if s.element.Some? {
      ParamInElement(s.element.value, s.member.value, s.memberEnum, g, d, Last(s'.member.value.params));
    } else {
      HeldLineAgrees(s, held, d, n);
    }
  }

  lemma SectionLineFollows(s: Parser, g: LineGroup, held: Lines, d: Described, n: nat)
    requires Open(s, g, held) && d.line.SectionLine? && NamesDomain(s, d)
    requires OnSection(s, d.line.section, n).Ok? && !Doomed(OnSection(s, d.line.section, n).value)
    ensures Follows(s, OnSection(s, d.line.section, n).value, d, g, held)
  {
    hide ElementAgrees, HeldAgrees, HoldOneMore, DependsOnly, AddMember;
    var s' := OnSection(s, d.line.section, n).value;
    SameDomains(s, s', d);
    if s.element.Some? {
      SectionInOpenElement(s, g, d, n);
    } else {
      HeldLineAgrees(s, held, d, n);
    }
  }

  lemma SectionInOpenElement(s: Parser, g: LineGroup, d: Described, n: nat)
    requires StartsElement(g.head) && s.element.Some? && s.domains != [] && d.line.SectionLine?
    requires ElementAgrees(s.element.value, s.member, s.memberEnum, g)
    requires OnSection(s, d.line.section, n).Ok? && !Doomed(OnSection(s, d.line.section, n).value)
    ensures var s' := OnSection(s, d.line.section, n).value;
            s'.element.Some? && ElementAgrees(s'.element.value, s'.member, s'.memberEnum, g.Add(d))
  {
    NoEnumYet(s.element.value, s.member, s.memberEnum, g);
    hide ElementAgrees, HasEnum, AddMember;
    SectionInElement(s.element.value, s.member, s.memberEnum, g, d);
  }

  /** An element with an enumeration is a type with an item, and has no open section. */
  lemma NoEnumYet(e: Element, member: Option<Member>, memberEnum: bool, g: LineGroup)
    requires StartsElement(g.head) && ElementAgrees(e, member, memberEnum, g)
    ensures HasEnum(g.tail) <==> e.TypeElement? && e.typeDef.item.Some? && e.typeDef.item.value.EnumItem?
    ensures HasEnum(g.tail) ==> member.None?
  {
    hide Groups, ParamsIn, HasSection, HasEnum, Variants, NewType;
  }

  lemma EnumLineFollows(s: Parser, g: LineGroup, held: Lines, d: Described, n: nat)
    requires Open(s, g, held) && d.line.EnumLine? && OnEnum(s, n).Ok? && !Doomed(OnEnum(s, n).value)
    ensures Follows(s, OnEnum(s, n).value, d, g, held)
  {
    hide ElementAgrees, HeldAgrees, HoldOneMore, DependsOnly;
    EnumInElement(s.element.value.typeDef, s.memberEnum, g, d);
    SameDomains(s, OnEnum(s, n).value, d);
  }

  lemma RedirectLineFollows(s: Parser, g: LineGroup, held: Lines, d: Described, n: nat)
    requires Open(s, g, held) && d.line.RedirectLine? && d.description == s.pending
    requires OnRedirect(s, d.line.domain, n).Ok?
    ensures Follows(s, OnRedirect(s, d.line.domain, n).value, d, g, held)
  {
    hide ElementAgrees, HeldAgrees, HoldOneMore, DependsOnly;
    RedirectInElement(s.element.value.command, s.member, s.memberEnum, g, d);
    SameDomains(s, OnRedirect(s, d.line.domain, n).value, d);
  }

  lemma LiteralLineFollows(s: Parser, g: LineGroup, held: Lines, d: Described, n: nat)
    requires Open(s, g, held) && d.line.LiteralLine? && d.description == s.pending && NamesDomain(s, d)
    requires OnLiteral(s, d.line.name, n).Ok? && !Doomed(s)
    ensures Follows(s, OnLiteral(s, d.line.name, n).value, d, g, held)
  {
    hide ElementAgrees, HeldAgrees, HoldOneMore, DependsOnly;
    SameDomains(s, OnLiteral(s, d.line.name, n).value, d);
    if s.element.None? {
      HeldLineAgrees(s, held, d, n);
    } else if s.memberEnum {
      VariantInElement(s.element.value, s.member.value, s.memberEnum, g, d);
    } else {
      LiteralInElement(s.element.value.typeDef, s.memberEnum, g, d);
    }
  }

  /** A line that starts neither a domain nor an element. */
  lemma InnerLineStep(s: Parser, lines: Lines, d: Described, n: nat)
    requires AgreesOn(s, lines) && !StartsDomain(d) && !StartsElement(d) && NamesDomain(s, d)
    requires Takes(d.line) ==> d.description == s.pending
    requires Step(s, d.line, n).Ok? && !Doomed(Step(s, d.line, n).value)
    ensures AgreesOn(Step(s, d.line, n).value, lines + [d])
  {
    hide AgreesOn, IsOpen, Open, Follows, Close, OnElement, OnParam, OnSection, OnEnum, OnRedirect, OnLiteral, Doomed;
    var g, held := OpenElementAgrees(s, lines);
    match d.line {
      case ParamLine(_, _, _, _, _) => ParamLineFollows(s, g, held, d, n);
      case SectionLine(_) => SectionLineFollows(s, g, held, d, n);
      case EnumLine => EnumLineFollows(s, g, held, d, n);
      case RedirectLine(_) => RedirectLineFollows(s, g, held, d, n);
      case LiteralLine(_) =>
        NotDoomedBefore(s, d.line, n);
        LiteralLineFollows(s, g, held, d, n);
      case UnknownLine(_) =>
      case _ => NeutralLineFollows(s, g, held, d, n);
    }
    InnerLineAgrees(s, Step(s, d.line, n).value, lines, d, g, held);
  }

  lemma VersionOneMore(lines: Lines, d: Described)
    ensures HeadingOf(lines + [d]) == if d.line.VersionLine? then d.description else HeadingOf(lines)
    ensures VersionOf(lines + [d]) ==
      if d.line.VersionLine? then Some(Version(0, 0))
      else match VersionOf(lines)
        case None => None
        case Some(Version(major, minor)) =>
          Some(Version(if d.line.MajorLine? then d.line.number else major,
                       if d.line.MinorLine? then d.line.number else minor))
  {
    GroupsOneMore(lines, d, StartsVersion);
    var groups := Groups(lines, StartsVersion);
    if groups != [] {
      assert Front(Last(groups).tail + [d]) == Last(groups).tail;
    }
  }

  // ---------- Whole runs ----------

  /** Once doomed, the parser can only fail. */
  lemma DoomedStays(s: Parser, line: Line, n: nat)
    requires Doomed(s)
    ensures Step(s, line, n).Ok? ==> Doomed(Step(s, line, n).value)
    ensures Close(s).Err?
  {
  }

  lemma NotDoomedBefore(s: Parser, line: Line, n: nat)
    requires Step(s, line, n).Ok? && !Doomed(Step(s, line, n).value)
    ensures !Doomed(s)
  {
    if Doomed(s) {
      DoomedStays(s, line, n);
    }
  }

  function PendingNext(pending: Option<string>, line: Line): Option<string> {
    if line.Comment? then Commented(pending, line.text) else if Takes(line) then None else pending
  }

  lemma StepPending(s: Parser, line: Line, n: nat)
    requires Step(s, line, n).Ok?
    ensures Step(s, line, n).value.pending == PendingNext(s.pending, line)
  {
    hide Close, OnParam, OnLiteral, OnSection, NewType, Commented;
    match line
    case ParamLine(_, _, _, _, _) => ParamPending(s, line, n);
    case LiteralLine(name) => LiteralPending(s, name, n);
    case SectionLine(section) => SectionPending(s, section, n);
    case _ => if Close(s).Ok? { ClosingKeepsTrack(s); }
  }

  lemma ParamPending(s: Parser, line: Line, n: nat)
    requires line.ParamLine? && OnParam(s, line, n).Ok?
    ensures OnParam(s, line, n).value.pending == None
  {
    hide NewType;
  }

  lemma LiteralPending(s: Parser, name: string, n: nat)
    requires OnLiteral(s, name, n).Ok?
    ensures OnLiteral(s, name, n).value.pending == None
  {
  }

  lemma SectionPending(s: Parser, section: Section, n: nat)
    requires OnSection(s, section, n).Ok?
    ensures OnSection(s, section, n).value.pending == s.pending
  {
    hide AddMember;
  }

  lemma ClosingKeepsTrack(s: Parser)
    requires Close(s).Ok?
    ensures var s' := Close(s).value;
            s'.pending == s.pending && s'.version == s.version && s'.description == s.description
  {
    hide AddMember, Consumed;
  }

  lemma StepKeepsPending(s: Parser, lines: seq<Line>, n: nat)
    requires lines != [] && s.pending == PendingAfter(Front(lines)) && Step(s, Last(lines), n).Ok?
    ensures Step(s, Last(lines), n).value.pending == PendingAfter(lines)
  {
    StepPending(s, Last(lines), n);
    PendingOneMore(lines);
    hide Step, Commented, PendingAfter;
  }

  lemma StepKeepsVersion(s: Parser, line: Line, n: nat)
    requires Step(s, line, n).Ok? && !line.VersionLine? && !line.MajorLine? && !line.MinorLine?
    ensures Step(s, line, n).value.version == s.version && Step(s, line, n).value.description == s.description
  {
    hide Close, NewType;
    if Close(s).Ok? {
      ClosingKeepsTrack(s);
    }
  }

  lemma StepKeepsTrack(s: Parser, lines: seq<Line>, line: Line, n: nat)
    requires s.pending == PendingAfter(lines) && Step(s, line, n).Ok?
    requires s.version == VersionOf(Describe(lines)) && s.description == HeadingOf(Describe(lines))
    ensures var s', longer := Step(s, line, n).value, lines + [line];
            && s'.pending == PendingAfter(longer)
            && s'.version == VersionOf(Describe(longer)) && s'.description == HeadingOf(Describe(longer))
  {
    hide VersionOf, HeadingOf, PendingAfter;
    var longer := lines + [line];
    assert Front(longer) == lines;
    StepKeepsPending(s, longer, n);
    VersionOneMore(Describe(lines), Last(Describe(longer)));
    if !line.VersionLine? && !line.MajorLine? && !line.MinorLine? {
      StepKeepsVersion(s, line, n);
      hide Step;
    }
  }

  lemma StepKeepsName(s: Parser, line: Line, n: nat)
    requires Step(s, line, n).Ok?
    ensures var s' := Step(s, line, n).value;
            if line.DomainLine? then s'.domains != [] && Last(s'.domains).name == line.name
            else (s'.domains == [] <==> s.domains == []) &&
                 (s.domains != [] ==> Last(s'.domains).name == Last(s.domains).name)
  {
    hide AddMember, NewType;
    if s.domains != [] && Close(s).Ok? {
      ClosingKeepsName(s);
    }
  }

  lemma StepAgrees(s: Parser, lines: seq<Line>, line: Line, n: nat)
    requires Agrees(s, lines) && Step(s, line, n).Ok? && !Doomed(Step(s, line, n).value)
    ensures Agrees(Step(s, line, n).value, lines + [line])
  {
    hide AgreesOn, Step, VersionOf, HeadingOf, Doomed;
    var before, longer := Describe(lines), lines + [line];
    assert Front(longer) == lines;
    var d := Described(line, if Takes(line) then PendingAfter(lines) else None, DomainAfter(longer));
    assert Describe(longer) == before + [d];
    StepKeepsTrack(s, lines, line, n);
    StepKeepsName(s, line, n);
    StepAgreesOn(s, before, d, n);
  }

  lemma StepAgreesOn(s: Parser, lines: Lines, d: Described, n: nat)
    requires AgreesOn(s, lines) && (Takes(d.line) ==> d.description == s.pending)
    requires Step(s, d.line, n).Ok? && !Doomed(Step(s, d.line, n).value)
    requires !d.line.DomainLine? ==> NamesDomain(s, d)
    ensures AgreesOn(Step(s, d.line, n).value, lines + [d])
  {
    hide AgreesOn, Close, OnElement, OnParam, OnSection, OnEnum, OnRedirect, OnLiteral, Doomed;
    if StartsDomain(d) {
      DomainLineAgrees(s, lines, d, n);
    } else if StartsElement(d) {
      ElementLineAgrees(s, lines, d, n);
    } else {
      InnerLineStep(s, lines, d, n);
    }
  }

  lemma AgreesAtStart()
    ensures Agrees(NEW_PARSER, [])
  {
  }

  lemma {:induction false} RunAgrees(lines: seq<Line>)
    requires Run(lines).Ok? && !Doomed(Run(lines).value)
    ensures Agrees(Run(lines).value, lines)
  {
    hide Agrees, Step, Doomed;
    if lines == [] {
      AgreesAtStart();
    } else {
      var front := Front(lines);
      NotDoomedBefore(Run(front).value, Last(lines), |lines|);
      RunAgrees(front);
      assert front + [Last(lines)] == lines;
      StepAgrees(Run(front).value, front, Last(lines), |lines|);
    }
  }

  /** On every accepted input the one-pass parser builds the lines grouped by domain, element, section and parameter, in
    * order and with their descriptions; except that of several sections of one kind in one element the last counts, and
    * that a section before any element is taken over by the next element. */
  lemma ParserGroups(lines: seq<Line>)
    requires Parse(lines).Ok?
    ensures Grouped(lines, Built) == Some(Parse(lines).value)
  {
    var s := Run(lines).value;
    if Doomed(s) {
      DoomedStays(s, Blank, 0);
    } else {
      RunAgrees(lines);
      CloseAgrees(s, Describe(lines));
    }
  }
}
