/** When the parser builds all that the lines declare. */
module PdlLosses {
  import opened Options
  import opened Sequences
  import opened Pdl
  import opened PdlParserSpec
  import opened PdlGrouping
  import opened PdlAgreement
  import opened PdlContents

  // ---------- What is lost, said of the lines ----------

  /** The sections that an element of this kind may have. */
  predicate Reads(head: Described, kind: Section) {
    match head.line
    case TypeLine(_, _, _, _) => kind.Properties?
    case CommandLine(_, _) => kind.Parameters? || kind.Returns?
    case EventLine(_, _) => kind.Parameters?
    case _ => false
  }

  predicate HasParam(section: LineGroup) {
    exists i :: 0 <= i < |section.tail| && section.tail[i].line.ParamLine?
  }

  predicate HasLiteral(lines: Lines) {
    exists i :: 0 <= i < |lines| && lines[i].line.LiteralLine?
  }

  /** A section with parameters is followed by another of its kind, which replaces it. */
  predicate Replaces(sections: seq<LineGroup>, kind: Section)
    requires AllStart(sections, StartsSection)
  {
    exists i, j :: 0 <= i < j < |sections| && sections[i].head.line.section == sections[j].head.line.section == kind
                   && HasParam(sections[i])
  }

  /** The early section that an element takes over, up to the first section of its own. */
  function Early(held: Lines, g: LineGroup): LineGroup
    requires held != []
  {
    Group(held[0], held[1..] + Lead(g.tail, StartsSection))
  }

  /** The element is built with all that its lines declare, although it takes over `held`: no section of its own replaces
    * another one with parameters, and the early section is replaced, or declares nothing. In a type, it would still leave
    * an empty section behind. */
  predicate Keeps(held: Lines, g: LineGroup)
    requires WellHeld(held)
  {
    if g.head.line.TypeLine? && HasEnum(g.tail) then !HasLiteral(held)
    else forall kind | Reads(g.head, kind) :: KeepsKind(held, g, kind)
  }

  /** No section of this kind with parameters is replaced, and an early one is replaced itself or declares nothing. */
  predicate KeepsKind(held: Lines, g: LineGroup, kind: Section)
    requires WellHeld(held)
  {
    var own := Groups(g.tail, StartsSection);
    && !Replaces(own, kind)
    && (held != [] && held[0].line.section == kind ==>
          HasSection(own, kind) || (!g.head.line.TypeLine? && !HasParam(Early(held, g))))
  }

  /** Only the first element of a domain takes over an early section. */
  predicate AllKeep(taken: Lines, elements: seq<LineGroup>)
    requires WellHeld(taken)
  {
    forall i | 0 <= i < |elements| :: Keeps(if i == 0 then taken else [], elements[i])
  }

  predicate DomainKeeps(domain: LineGroup, held: Lines)
    requires WellHeld(held)
  {
    HoldIsWell(held, Lead(domain.tail, StartsElement));
    AllKeep(TakenOver(domain, held), Groups(domain.tail, StartsElement))
  }

  predicate KeepsAt(start: Lines, domains: seq<LineGroup>, i: nat)
    requires i < |domains|
  {
    HeldIsWell(start, domains[..i]);
    DomainKeeps(domains[i], HeldAfter(start, domains[..i]))
  }

  predicate DomainsKeep(start: Lines, domains: seq<LineGroup>) {
    forall i | 0 <= i < |domains| :: KeepsAt(start, domains, i)
  }

  /** Every element of every domain is built with all that its lines declare, and with nothing else. */
  predicate SectionsKept(lines: seq<Line>) {
    DomainsKeep(Lead(Describe(lines), StartsDomain), Groups(Describe(lines), StartsDomain))
  }

  lemma {:induction false} HoldIsWell(held: Lines, lines: Lines)
    requires WellHeld(held)
    ensures WellHeld(Hold(held, lines))
  {
    if lines != [] {
      HoldIsWell(held, Front(lines));
    }
  }

  lemma {:induction false} HeldIsWell(start: Lines, domains: seq<LineGroup>)
    ensures WellHeld(HeldAfter(start, domains))
  {
    if domains == [] {
      HoldIsWell([], start);
    } else {
      HeldIsWell(start, Front(domains));
      HoldIsWell(HeldAfter(start, Front(domains)), Last(domains).tail);
    }
  }

  // ---------- One kind of sections ----------

  lemma {:induction false} ParamsExactlyWhen(lines: Lines)
    ensures Groups(lines, StartsParam) == [] <==> forall i | 0 <= i < |lines| :: !lines[i].line.ParamLine?
  {
    if lines != [] {
      ParamsExactlyWhen(Front(lines));
      assert forall i | 0 <= i < |Front(lines)| :: lines[i] == Front(lines)[i];
    }
  }

  lemma SectionEmptyExactlyWhen(section: LineGroup)
    ensures SectionParams(section) == [] <==> !HasParam(section)
  {
    ParamsExactlyWhen(section.tail);
  }

  /** No section of this kind has parameters. */
  predicate NoneHasParam(sections: seq<LineGroup>, kind: Section)
    requires AllStart(sections, StartsSection)
  {
    forall i | 0 <= i < |sections| && sections[i].head.line.section == kind :: !HasParam(sections[i])
  }

  lemma NoneOneMore(sections: seq<LineGroup>, kind: Section)
    requires sections != [] && AllStart(sections, StartsSection) && AllStart(Front(sections), StartsSection)
    ensures NoneHasParam(sections, kind) <==>
            NoneHasParam(Front(sections), kind) && !(Last(sections).head.line.section == kind && HasParam(Last(sections)))
  {
    hide HasParam;
    assert forall i | 0 <= i < |Front(sections)| :: sections[i] == Front(sections)[i];
  }

  lemma {:induction false} NoneExactlyWhen(sections: seq<LineGroup>, kind: Section)
    requires AllStart(sections, StartsSection)
    ensures ParamsIn(sections, kind, Declared) == [] <==> NoneHasParam(sections, kind)
  {
    if sections != [] {
      hide HasParam, SectionParams, NoneHasParam;
      NoneExactlyWhen(Front(sections), kind);
      NoneOneMore(sections, kind);
      SectionEmptyExactlyWhen(Last(sections));
    }
  }

  lemma ReplacesOneMore(sections: seq<LineGroup>, kind: Section)
    requires sections != [] && AllStart(sections, StartsSection) && AllStart(Front(sections), StartsSection)
    ensures Replaces(sections, kind) <==>
      || Replaces(Front(sections), kind)
      || (&& Last(sections).head.line.section == kind
          && exists i :: 0 <= i < |Front(sections)| && Front(sections)[i].head.line.section == kind
                         && HasParam(Front(sections)[i]))
  {
    hide HasParam;
    assert forall i | 0 <= i < |Front(sections)| :: sections[i] == Front(sections)[i];
  }

  lemma ReplacesOnlyParams(sections: seq<LineGroup>, kind: Section)
    requires AllStart(sections, StartsSection)
    ensures Replaces(sections, kind) ==>
      HasSection(sections, kind) &&
      exists i :: 0 <= i < |sections| && sections[i].head.line.section == kind && HasParam(sections[i])
    ensures sections == [] ==> !Replaces(sections, kind)
  {
    hide HasParam;
  }

  /** Counting all sections of one kind or only the last makes a difference exactly when one replaces another. */
  lemma {:induction false} SameParamsExactlyWhen(sections: seq<LineGroup>, kind: Section)
    requires AllStart(sections, StartsSection)
    ensures ParamsIn(sections, kind, Declared) == ParamsIn(sections, kind, Built) <==> !Replaces(sections, kind)
  {
    if sections == [] {
      ReplacesOnlyParams(sections, kind);
    } else {
      hide HasParam, SectionParams, Replaces;
      var front := Front(sections);
      ReplacesOneMore(sections, kind);
      SameParamsExactlyWhen(front, kind);
      NoneExactlyWhen(front, kind);
      if Last(sections).head.line.section == kind {
        var some, last := ParamsIn(front, kind, Declared), SectionParams(Last(sections));
        assert some == [] ==> some + last == last;
        assert some != [] ==> |some + last| > |last|;
        ReplacesOnlyParams(front, kind);
      }
    }
  }

  lemma {:induction false} NoSectionNoParams(sections: seq<LineGroup>, kind: Section)
    requires AllStart(sections, StartsSection) && !HasSection(sections, kind)
    ensures ParamsIn(sections, kind, Declared) == [] && ParamsIn(sections, kind, Built) == []
  {
    if sections != [] {
      assert sections[|sections| - 1].head.line.section != kind;
      assert forall i | 0 <= i < |Front(sections)| :: Front(sections)[i] == sections[i];
      NoSectionNoParams(Front(sections), kind);
    }
  }

  lemma FrontSectionThere(early: LineGroup, own: seq<LineGroup>, kind: Section)
    requires StartsSection(early.head) && AllStart(own, StartsSection)
    ensures AllStart([early] + own, StartsSection)
    ensures HasSection([early] + own, kind) <==> early.head.line.section == kind || HasSection(own, kind)
  {
    var all := [early] + own;
    assert forall i | 0 <= i < |own| :: all[i + 1] == own[i];
    assert all[0] == early;
  }

  /** A section in front counts only if there is no other of its kind. */
  lemma {:induction false} FrontSectionCounts(early: LineGroup, own: seq<LineGroup>, kind: Section)
    requires StartsSection(early.head) && AllStart(own, StartsSection) && AllStart([early] + own, StartsSection)
    ensures ParamsIn([early] + own, kind, Built) ==
            if HasSection(own, kind) then ParamsIn(own, kind, Built)
            else if early.head.line.section == kind then SectionParams(early) else []
    decreases |own|
  {
    hide SectionParams;
    var all := [early] + own;
    if own == [] {
      assert all == [early] && Front(all) == [];
    } else {
      var front := Front(own);
      FrontStarts(own, StartsSection);
      SectionsOneMore(own, kind);
      FrontSectionThere(early, front, kind);
      hide AllStart, HasSection;
      assert Front(all) == [early] + front && Last(all) == Last(own);
      FrontSectionCounts(early, front, kind);
    }
  }

  // ---------- One element ----------

  /** The sections of an element that takes over an early one. */
  lemma {:induction false} SectionsWithEarly(held: Lines, tail: Lines)
    requires held != [] && WellHeld(held)
    ensures Groups(held + tail, StartsSection) ==
            [Group(held[0], held[1..] + Lead(tail, StartsSection))] + Groups(tail, StartsSection)
  {
    if tail == [] {
      HeldHasOneSection(held);
      assert held + tail == held && held[1..] + [] == held[1..];
    } else {
      var front, d := Front(tail), Last(tail);
      SectionsWithEarly(held, front);
      assert tail == front + [d];
      assert held + tail == held + front + [d];
      GroupsOneMore(held + front, d, StartsSection);
      GroupsOneMore(front, d, StartsSection);
      LeadStays(front, d, StartsSection);
      var early, own := Group(held[0], held[1..] + Lead(front, StartsSection)), Groups(front, StartsSection);
      SectionsWithEarlyOneMore(held, front, d, early, own);
    }
  }

  lemma SectionsWithEarlyOneMore(held: Lines, front: Lines, d: Described, early: LineGroup, own: seq<LineGroup>)
    requires held != [] && own == Groups(front, StartsSection)
    requires early == Group(held[0], held[1..] + Lead(front, StartsSection))
    ensures var all := [early] + own;
            var lead := if own == [] && !StartsSection(d) then front + [d] else Lead(front, StartsSection);
            [Group(held[0], held[1..] + lead)] +
              (if StartsSection(d) then own + [Group(d, [])] else if own == [] then [] else Front(own) + [Last(own).Add(d)])
            == if StartsSection(d) then all + [Group(d, [])] else Front(all) + [Last(all).Add(d)]
  {
    hide Groups, Lead;
    var all := [early] + own;
    if own == [] {
      LeadIsAll(front, StartsSection);
      assert held[1..] + (front + [d]) == held[1..] + front + [d];
      assert all == [early] && Front(all) == [];
    } else {
      assert Front(all) == [early] + Front(own) && Last(all) == Last(own);
    }
  }

  lemma {:induction false} HeldAddsLiterals(held: Lines, tail: Lines)
    requires WellHeld(held)
    ensures Variants(held + tail) == Variants(held) + Variants(tail)
    ensures LastRedirect(held + tail) == LastRedirect(tail)
    ensures HasEnum(held + tail) <==> HasEnum(tail)
    decreases |tail|
  {
    if tail == [] {
      assert held + tail == held;
      HeldHasOneSection(held);
    } else {
      var front, d := Front(tail), Last(tail);
      assert tail == front + [d] && held + tail == held + front + [d];
      HeldAddsLiterals(held, front);
      LinesOneMore(held + front, d);
      LinesOneMore(front, d);
      hide HasEnum, LastRedirect, Variants;
      var more := if d.line.LiteralLine? then [Variant(d.description, d.line.name)] else [];
      assert Variants(held) + (Variants(front) + more) == Variants(held) + Variants(front) + more;
    }
  }

  lemma {:induction false} LiteralsExactlyWhen(lines: Lines)
    ensures Variants(lines) == [] <==> !HasLiteral(lines)
  {
    if lines != [] {
      var front, d := Front(lines), Last(lines);
      LiteralsExactlyWhen(front);
      assert lines == front + [d];
      assert forall i | 0 <= i < |front| :: lines[i] == front[i];
      assert lines[|front|] == d;
    }
  }

  /** What an element with an early section has of one kind. */
  lemma SameKindExactlyWhen(held: Lines, g: LineGroup, kind: Section)
    requires WellHeld(held)
    ensures var own := Groups(g.tail, StartsSection);
            var all := Groups(held + g.tail, StartsSection);
            && (HasSection(all, kind) <==> HasSection(own, kind) || (held != [] && held[0].line.section == kind))
            && (ParamsIn(all, kind, Built) == ParamsIn(own, kind, Declared) <==>
                  && !Replaces(own, kind)
                  && (held != [] && held[0].line.section == kind ==> HasSection(own, kind) || !HasParam(Early(held, g))))
            && (Replaces(own, kind) ==> HasSection(own, kind))
  {
    var own := Groups(g.tail, StartsSection);
    SameParamsExactlyWhen(own, kind);
    ReplacesOnlyParams(own, kind);
    if !HasSection(own, kind) {
      NoSectionNoParams(own, kind);
    }
    if held == [] {
      assert held + g.tail == g.tail;
    } else {
      var early := Early(held, g);
      SectionsWithEarly(held, g.tail);
      FrontSectionThere(early, own, kind);
      FrontSectionCounts(early, own, kind);
      SectionEmptyExactlyWhen(early);
    }
  }

  lemma SameElementExactlyWhen(held: Lines, g: LineGroup)
    requires WellHeld(held) && StartsElement(g.head)
    ensures ElementOf(Group(g.head, held + g.tail), Built) == ElementOf(g, Declared) <==> Keeps(held, g)
  {
    if g.head.line.TypeLine? {
      SameItemExactlyWhen(held, g);
      hide ItemOf, Keeps, NewType;
    } else {
      SameParametersExactlyWhen(held, g);
    }
  }

  lemma SameParametersExactlyWhen(held: Lines, g: LineGroup)
    requires WellHeld(held) && StartsElement(g.head) && !g.head.line.TypeLine?
    ensures ElementOf(Group(g.head, held + g.tail), Built) == ElementOf(g, Declared) <==> Keeps(held, g)
  {
    if g.head.line.CommandLine? {
      SameCommandExactlyWhen(held, g);
    } else {
      SameEventExactlyWhen(held, g);
    }
  }

  lemma KindKeptExactlyWhen(held: Lines, g: LineGroup, kind: Section)
    requires WellHeld(held) && !g.head.line.TypeLine?
    ensures var own, all := Groups(g.tail, StartsSection), Groups(held + g.tail, StartsSection);
            ParamsIn(all, kind, Built) == ParamsIn(own, kind, Declared) <==> KeepsKind(held, g, kind)
  {
    SameKindExactlyWhen(held, g, kind);
    hide Groups, Replaces, ParamsIn, HasSection, HasParam, Early, WellHeld;
  }

  lemma SameCommandExactlyWhen(held: Lines, g: LineGroup)
    requires WellHeld(held) && g.head.line.CommandLine?
    ensures ElementOf(Group(g.head, held + g.tail), Built) == ElementOf(g, Declared) <==> Keeps(held, g)
  {
    KindKeptExactlyWhen(held, g, Parameters);
    KindKeptExactlyWhen(held, g, Returns);
    HeldAddsLiterals(held, g.tail);
    assert forall kind :: Reads(g.head, kind) <==> kind.Parameters? || kind.Returns?;
    hide Groups, ParamsIn, KeepsKind, HasEnum, Variants, LastRedirect, ItemOf, NewType, WellHeld, Reads;
  }

  lemma SameEventExactlyWhen(held: Lines, g: LineGroup)
    requires WellHeld(held) && g.head.line.EventLine?
    ensures ElementOf(Group(g.head, held + g.tail), Built) == ElementOf(g, Declared) <==> Keeps(held, g)
  {
    KindKeptExactlyWhen(held, g, Parameters);
    assert forall kind :: Reads(g.head, kind) <==> kind.Parameters?;
    hide Groups, ParamsIn, KeepsKind, HasEnum, Variants, LastRedirect, ItemOf, NewType, WellHeld, Reads;
  }

  lemma SameItemExactlyWhen(held: Lines, g: LineGroup)
    requires WellHeld(held) && g.head.line.TypeLine?
    ensures var own, all := Groups(g.tail, StartsSection), Groups(held + g.tail, StartsSection);
            ItemOf(held + g.tail, all, Built) == ItemOf(g.tail, own, Declared) <==> Keeps(held, g)
  {
    HeldAddsLiterals(held, g.tail);
    hide Replaces, ParamsIn, HasSection, HasEnum, HasLiteral, HasParam, Variants, LastRedirect, Early, Groups;
    if HasEnum(g.tail) {
      MoreLiteralsExactlyWhen(held, g.tail);
    } else {
      SameKindExactlyWhen(held, g, Properties);
      hide Lead;
      assert Reads(g.head, Properties) && !Reads(g.head, Parameters) && !Reads(g.head, Returns);
    }
  }

  lemma MoreLiteralsExactlyWhen(held: Lines, tail: Lines)
    ensures Variants(held) + Variants(tail) == Variants(tail) <==> !HasLiteral(held)
  {
    LiteralsExactlyWhen(held);
    hide Variants, HasLiteral;
    assert Variants(held) == [] ==> Variants(held) + Variants(tail) == Variants(tail);
    assert Variants(held) != [] ==> |Variants(held) + Variants(tail)| > |Variants(tail)|;
  }

  // ---------- Lists of elements ----------

  lemma SameListsOneMore<T>(a: seq<T>, b: seq<T>, x: T, y: T)
    requires |a| == |b|
    ensures a + [x] == b + [y] <==> a == b && x == y
  {
    assert Front(a + [x]) == a && Front(b + [y]) == b;
    assert a + [x] == b + [y] ==> Last(a + [x]) == Last(b + [y]);
  }

  predicate SameKinds(a: seq<Element>, b: seq<Element>) {
    && |a| == |b|
    && forall i | 0 <= i < |a| :: a[i].TypeElement? == b[i].TypeElement? && a[i].CommandElement? == b[i].CommandElement?
  }

  lemma SameKindsOneMore(a: seq<Element>, b: seq<Element>, x: Element, y: Element)
    requires SameKinds(a, b) && x.TypeElement? == y.TypeElement? && x.CommandElement? == y.CommandElement?
    ensures SameKinds(a + [x], b + [y])
  {
  }

  lemma SameKind(held: Lines, g: LineGroup)
    requires StartsElement(g.head)
    ensures var x, y := ElementOf(Group(g.head, held + g.tail), Built), ElementOf(g, Declared);
            x.TypeElement? == y.TypeElement? && x.CommandElement? == y.CommandElement?
  {
    hide ItemOf, ParamsIn;
  }

  lemma SameListsExactlyWhen(a: seq<Element>, b: seq<Element>, x: Element, y: Element)
    requires |a| == |b| && x.TypeElement? == y.TypeElement? && x.CommandElement? == y.CommandElement?
    requires |TypesIn(a)| == |TypesIn(b)| && |CommandsIn(a)| == |CommandsIn(b)| && |EventsIn(a)| == |EventsIn(b)|
    requires a == b <==> TypesIn(a) == TypesIn(b) && CommandsIn(a) == CommandsIn(b) && EventsIn(a) == EventsIn(b)
    ensures var c, d := a + [x], b + [y];
            && (c == d <==> a == b && x == y)
            && (c == d <==> TypesIn(c) == TypesIn(d) && CommandsIn(c) == CommandsIn(d) && EventsIn(c) == EventsIn(d))
            && |TypesIn(c)| == |TypesIn(d)| && |CommandsIn(c)| == |CommandsIn(d)| && |EventsIn(c)| == |EventsIn(d)|
  {
    var c, d := a + [x], b + [y];
    assert Front(c) == a && Front(d) == b;
    assert c == d ==> a == b && Last(c) == Last(d);
    if TypesIn(c) == TypesIn(d) && CommandsIn(c) == CommandsIn(d) && EventsIn(c) == EventsIn(d) {
      assert TypesIn(c)[..|TypesIn(a)|] == TypesIn(a) && TypesIn(d)[..|TypesIn(b)|] == TypesIn(b);
      assert CommandsIn(c)[..|CommandsIn(a)|] == CommandsIn(a) && CommandsIn(d)[..|CommandsIn(b)|] == CommandsIn(b);
      assert EventsIn(c)[..|EventsIn(a)|] == EventsIn(a) && EventsIn(d)[..|EventsIn(b)|] == EventsIn(b);
      match x
      case TypeElement(t) => assert Last(TypesIn(c)) == t && Last(TypesIn(d)) == y.typeDef;
      case CommandElement(k) => assert Last(CommandsIn(c)) == k && Last(CommandsIn(d)) == y.command;
      case EventElement(ev) => assert Last(EventsIn(c)) == ev && Last(EventsIn(d)) == y.event;
    }
  }

  /** Sorting elements by kind loses nothing. */
  lemma {:induction false} ListsDecide(a: seq<Element>, b: seq<Element>)
    requires SameKinds(a, b)
    ensures a == b <==> TypesIn(a) == TypesIn(b) && CommandsIn(a) == CommandsIn(b) && EventsIn(a) == EventsIn(b)
    ensures |TypesIn(a)| == |TypesIn(b)| && |CommandsIn(a)| == |CommandsIn(b)| && |EventsIn(a)| == |EventsIn(b)|
  {
    if a != [] {
      ListsDecide(Front(a), Front(b));
      assert a == Front(a) + [Last(a)] && b == Front(b) + [Last(b)];
      hide TypesIn, CommandsIn, EventsIn;
      SameListsExactlyWhen(Front(a), Front(b), Last(a), Last(b));
    }
  }

  /** The first of these elements takes over an early section. */
  function WithTaken(taken: Lines, elements: seq<LineGroup>): (r: seq<LineGroup>)
    requires AllStart(elements, StartsElement)
    ensures |r| == |elements| && AllStart(r, StartsElement)
  {
    if elements == [] then [] else elements[0 := Group(elements[0].head, taken + elements[0].tail)]
  }

  lemma WithTakenOneMore(taken: Lines, elements: seq<LineGroup>)
    requires elements != [] && AllStart(elements, StartsElement) && AllStart(Front(elements), StartsElement)
    ensures var g, first := Last(elements), |elements| == 1;
            && Front(WithTaken(taken, elements)) == WithTaken(taken, Front(elements))
            && Last(WithTaken(taken, elements)) == Group(g.head, (if first then taken else []) + g.tail)
  {
    if |elements| > 1 {
      assert [] + Last(elements).tail == Last(elements).tail;
    }
  }

  lemma KeepOneMore(taken: Lines, elements: seq<LineGroup>)
    requires WellHeld(taken) && elements != []
    ensures AllKeep(taken, elements) <==>
            AllKeep(taken, Front(elements)) && Keeps(if |elements| == 1 then taken else [], Last(elements))
  {
    hide Keeps;
    var front := Front(elements);
    assert elements == front + [Last(elements)];
    assert forall i | 0 <= i < |front| :: front[i] == elements[i];
  }

  lemma FrontStarts(groups: seq<LineGroup>, starts: Described -> bool)
    requires groups != [] && AllStart(groups, starts)
    ensures AllStart(Front(groups), starts) && starts(Last(groups).head)
  {
  }

  lemma {:induction false} SameElementsExactlyWhen(taken: Lines, elements: seq<LineGroup>)
    requires WellHeld(taken) && AllStart(elements, StartsElement)
    ensures var built, declared := ElementsOf(WithTaken(taken, elements), Built), ElementsOf(elements, Declared);
            && SameKinds(built, declared)
            && (built == declared <==> AllKeep(taken, elements))
    decreases |elements|
  {
    if elements != [] {
      FrontStarts(elements, StartsElement);
      WithTakenOneMore(taken, elements);
      KeepOneMore(taken, elements);
      hide Keeps, ElementOf, AllKeep, AllStart, SameKinds, WithTaken, WellHeld;
      var g, front := Last(elements), Front(elements);
      var held := if |elements| == 1 then taken else [];
      NothingIsWell();
      SameElementsExactlyWhen(taken, front);
      SameElementExactlyWhen(held, g);
      SameKind(held, g);
      var a, b := ElementsOf(WithTaken(taken, front), Built), ElementsOf(front, Declared);
      var x, y := ElementOf(Group(g.head, held + g.tail), Built), ElementOf(g, Declared);
      SameListsOneMore(a, b, x, y);
      SameKindsOneMore(a, b, x, y);
    }
  }

  lemma NothingIsWell()
    ensures WellHeld([])
  {
  }

  // ---------- Domains ----------

  lemma SameDomainExactlyWhen(domain: LineGroup, held: Lines)
    requires StartsDomain(domain.head) && WellHeld(held)
    ensures DomainOf(domain, held, Built) == DomainOf(domain, held, Declared) <==> DomainKeeps(domain, held)
  {
    hide ElementsOf, TypesIn, CommandsIn, EventsIn, AllKeep, Dependencies, SameKinds, Groups, Lead, Hold;
    var elements := Groups(domain.tail, StartsElement);
    HoldIsWell(held, Lead(domain.tail, StartsElement));
    var taken := TakenOver(domain, held);
    assert ElementGroups(domain, held, Built) == WithTaken(taken, elements);
    SameElementsExactlyWhen(taken, elements);
    ListsDecide(ElementsOf(WithTaken(taken, elements), Built), ElementsOf(elements, Declared));
  }

  lemma DomainKeepOneMore(start: Lines, domains: seq<LineGroup>)
    requires domains != []
    ensures WellHeld(HeldAfter(start, Front(domains)))
    ensures DomainsKeep(start, domains) <==>
            DomainsKeep(start, Front(domains)) && DomainKeeps(Last(domains), HeldAfter(start, Front(domains)))
  {
    var front := Front(domains);
    HeldIsWell(start, front);
    assert domains[..|front|] == front;
    assert KeepsAt(start, domains, |front|) == DomainKeeps(Last(domains), HeldAfter(start, front));
    forall i | 0 <= i < |front|
      ensures KeepsAt(start, front, i) == KeepsAt(start, domains, i)
    {
      KeepsInFront(start, domains, i);
    }
    hide KeepsAt, DomainKeeps, HeldAfter, WellHeld;
  }

  lemma KeepsInFront(start: Lines, domains: seq<LineGroup>, i: nat)
    requires i < |domains| - 1
    ensures KeepsAt(start, Front(domains), i) == KeepsAt(start, domains, i)
  {
    hide DomainKeeps, HeldAfter, WellHeld;
    assert Front(domains)[..i] == domains[..i];
  }

  lemma {:induction false} SameDomainsExactlyWhen(start: Lines, domains: seq<LineGroup>)
    requires AllStart(domains, StartsDomain)
    ensures DomainsOf(start, domains, Built) == DomainsOf(start, domains, Declared) <==> DomainsKeep(start, domains)
    decreases |domains|
  {
    if domains != [] {
      FrontStarts(domains, StartsDomain);
      DomainKeepOneMore(start, domains);
      hide DomainOf, DomainKeeps, DomainsKeep, AllStart, HeldAfter, WellHeld;
      var front := Front(domains);
      var held := HeldAfter(start, front);
      SameDomainsExactlyWhen(start, front);
      SameDomainExactlyWhen(Last(domains), held);
      SameListsOneMore(DomainsOf(start, front, Built), DomainsOf(start, front, Declared),
                       DomainOf(Last(domains), held, Built), DomainOf(Last(domains), held, Declared));
    }
  }

  // ---------- Whole inputs ----------

  /** On every accepted input the parser builds the layout of elements and sections that the lines declare, each section
    * with the element above it, exactly when no section with parameters is replaced by another of its kind in the same
    * element, and no section before the first element of its domain leaves something in the element that takes it over. */
  lemma LayoutKeptExactlyWhen(lines: seq<Line>)
    requires Parse(lines).Ok?
    ensures Grouped(lines, Declared) == Some(Parse(lines).value) <==> SectionsKept(lines)
  {
    ParserGroups(lines);
    var described := Describe(lines);
    SameDomainsExactlyWhen(Lead(described, StartsDomain), Groups(described, StartsDomain));
  }

  /** Nothing at all is lost on an accepted input, comments, redirects and versions included, exactly when the layout is
    * kept, no element has two redirect lines, there is one version line and at most one line for each of its numbers,
    * every comment is followed by a line that takes it, and no parameter comes before the first element of its domain. */
  lemma NothingIsLostExactlyWhen(lines: seq<Line>)
    requires Parse(lines).Ok?
    ensures Declares(lines) == Some(ContentsOf(Parse(lines).value)) <==> SectionsKept(lines) && NothingReplaced(lines)
  {
    LayoutKeptExactlyWhen(lines);
    SaidExactlyWhen(lines);
    hide Parse, Declares, ContentsOf, SectionsKept, NothingReplaced, Grouped;
  }

  /** Every section header has an element of its domain before it. */
  predicate SectionsUnderElements(lines: seq<Line>) {
    forall i | 0 <= i < |lines| && lines[i].SectionLine? :: UnderElement(lines[..i])
  }

  /** What comes before the first domain, and before the first element of each domain, has no section. */
  predicate LeadsWithoutSection(lines: Lines) {
    var domains := Groups(lines, StartsDomain);
    && NoSection(Lead(lines, StartsDomain))
    && forall i | 0 <= i < |domains| :: NoSection(Lead(domains[i].tail, StartsElement))
  }

  lemma SectionsOneMoreUnder(lines: seq<Line>)
    requires lines != []
    ensures SectionsUnderElements(lines) ==>
            SectionsUnderElements(Front(lines)) && (Last(lines).SectionLine? ==> UnderElement(Front(lines)))
  {
    hide UnderElement;
    var front := Front(lines);
    assert forall i | 0 <= i < |front| :: front[i] == lines[i] && front[..i] == lines[..i];
    if SectionsUnderElements(lines) && Last(lines).SectionLine? {
      assert UnderElement(lines[..|front|]);
    }
  }

  /** The last domain has an element. */
  predicate InSomeElement(lines: Lines) {
    var domains := Groups(lines, StartsDomain);
    domains != [] && Groups(Last(domains).tail, StartsElement) != []
  }

  lemma LeadsOneMore(lines: Lines, d: Described)
    requires LeadsWithoutSection(lines) && (StartsSection(d) ==> InSomeElement(lines))
    ensures LeadsWithoutSection(lines + [d])
    ensures InSomeElement(lines + [d]) <==> !StartsDomain(d) && (InSomeElement(lines) || (StartsElement(d) && Groups(lines, StartsDomain) != []))
  {
    hide Groups, Lead, NoSection;
    GroupsOneMore(lines, d, StartsDomain);
    LeadStays(lines, d, StartsDomain);
    var domains := Groups(lines, StartsDomain);
    if StartsDomain(d) {
      NoLinesInNewDomain();
    } else if domains == [] {
      LeadIsAll(lines, StartsDomain);
      NoSectionOneMore(lines, d);
    } else {
      var tail := Last(domains).tail;
      GroupsOneMore(tail, d, StartsElement);
      LeadStays(tail, d, StartsElement);
      if Groups(tail, StartsElement) == [] {
        LeadIsAll(tail, StartsElement);
        NoSectionOneMore(tail, d);
      }
    }
  }

  lemma NoLinesInNewDomain()
    ensures Groups<Described>([], StartsElement) == [] && NoSection(Lead([], StartsElement))
  {
  }

  lemma NoSectionOneMore(lines: Lines, d: Described)
    requires NoSection(lines) && !StartsSection(d)
    ensures NoSection(lines + [d])
  {
  }

  /** The line-by-line notion of a domain with elements is that of the groups, on any input that is accepted so far. */
  lemma {:induction false} UnderElementsInGroups(lines: seq<Line>)
    requires Run(lines).Ok? && SectionsUnderElements(lines)
    ensures LeadsWithoutSection(Describe(lines))
    ensures UnderElement(lines) <==> InSomeElement(Describe(lines))
    ensures Run(lines).value.domains != [] <==> Groups(Describe(lines), StartsDomain) != []
  {
    if lines == [] {
      NoLinesInNewDomain();
    } else {
      var front := Front(lines);
      RunBefore(lines);
      SectionsOneMoreUnder(lines);
      DescribeOneMore(lines);
      var d := Last(Describe(lines));
      assert StartsElement(d) ==> Run(front).value.domains != [];
      StepKeepsDomains(Run(front).value, Last(lines), |lines|);
      hide Run, Step, Describe, LeadsWithoutSection, InSomeElement, Groups;
      UnderElementsInGroups(front);
      LeadsOneMore(Describe(front), d);
      GroupsOneMore(Describe(front), d, StartsDomain);
    }
  }

  lemma StepKeepsDomains(s: Parser, line: Line, n: nat)
    requires Step(s, line, n).Ok?
    ensures Step(s, line, n).value.domains != [] <==> s.domains != [] || line.DomainLine?
    ensures line.TypeLine? || line.CommandLine? || line.EventLine? ==> s.domains != []
  {
    StepKeepsName(s, line, n);
  }

  /** A parameter needs an open section, and the sections are where they belong. */
  lemma {:induction false} ParamsArePlaced(lines: seq<Line>)
    requires Run(lines).Ok? && SectionsUnderElements(lines)
    ensures ParamsUnderElements(lines)
    ensures UnderElement(lines) <==> Run(lines).value.element.Some?
    ensures !UnderElement(lines) ==> Run(lines).value.member.None?
    ensures Run(lines).value.domains == [] ==> Run(lines).value.element.None?
  {
    if lines == [] {
      NothingRun();
    } else {
      var front, line := Front(lines), Last(lines);
      RunBefore(lines);
      SectionsOneMoreUnder(lines);
      ParamsOneMore(lines);
      hide Run, Step, ParamsUnderElements;
      ParamsArePlaced(front);
      StepOpens(Run(front).value, line, |lines|);
    }
  }

  lemma StepOpens(s: Parser, line: Line, n: nat)
    requires Step(s, line, n).Ok? && (s.domains == [] ==> s.element.None?) && (s.element.None? ==> s.member.None?)
    requires line.SectionLine? ==> s.element.Some?
    ensures var s' := Step(s, line, n).value;
            && (s'.element.Some? <==>
                  !line.DomainLine? && (line.TypeLine? || line.CommandLine? || line.EventLine? || s.element.Some?))
            && (s'.element.None? ==> s'.member.None?)
            && (s'.domains == [] ==> s'.element.None?)
    ensures line.ParamLine? ==> s.element.Some?
  {
    hide AddMember, Consumed, NewType;
  }

  predicate NoSection(lines: Lines) {
    forall i | 0 <= i < |lines| :: !StartsSection(lines[i])
  }

  predicate DistinctSections(sections: seq<LineGroup>)
    requires AllStart(sections, StartsSection)
  {
    forall i, j | 0 <= i < j < |sections| :: sections[i].head.line.section != sections[j].head.line.section
  }

  /** No element has two sections of one kind. */
  predicate SectionsNotRepeated(lines: seq<Line>) {
    var domains := Groups(Describe(lines), StartsDomain);
    forall i, j | 0 <= i < |domains| && 0 <= j < |Groups(domains[i].tail, StartsElement)| ::
      DistinctSections(Groups(Groups(domains[i].tail, StartsElement)[j].tail, StartsSection))
  }

  lemma {:induction false} NothingToHold(lines: Lines)
    requires NoSection(lines)
    ensures Hold([], lines) == []
  {
    if lines != [] {
      assert NoSection(Front(lines)) && !StartsSection(lines[|lines| - 1]);
      NothingToHold(Front(lines));
    }
  }

  lemma {:induction false} NothingHeld(start: Lines, domains: seq<LineGroup>)
    requires NoSection(start)
    requires forall i | 0 <= i < |domains| :: NoSection(Lead(domains[i].tail, StartsElement))
    ensures HeldAfter(start, domains) == []
    decreases |domains|
  {
    if domains == [] {
      NothingToHold(start);
    } else {
      var front, domain := Front(domains), Last(domains);
      assert forall i | 0 <= i < |front| :: front[i] == domains[i];
      NothingHeld(start, front);
      assert NoSection(Lead(domain.tail, StartsElement));
      if Groups(domain.tail, StartsElement) == [] {
        LeadIsAll(domain.tail, StartsElement);
        NothingToHold(domain.tail);
      }
    }
  }

  lemma DistinctKeeps(g: LineGroup)
    requires DistinctSections(Groups(g.tail, StartsSection))
    ensures Keeps([], g)
  {
    hide Groups, HasParam;
    assert forall kind :: !Replaces(Groups(g.tail, StartsSection), kind);
  }

  lemma LayoutPlacedOnce(lines: seq<Line>)
    requires LeadsWithoutSection(Describe(lines)) && SectionsNotRepeated(lines)
    ensures SectionsKept(lines)
  {
    var described := Describe(lines);
    var start, domains := Lead(described, StartsDomain), Groups(described, StartsDomain);
    forall i | 0 <= i < |domains|
      ensures KeepsAt(start, domains, i)
    {
      assert forall j | 0 <= j < i :: domains[..i][j] == domains[j];
      NothingHeld(start, domains[..i]);
      DomainPlacedOnce(domains[i]);
    }
  }

  /** In particular, nothing is lost when every section header sits under an element and is not repeated there, neither
    * are redirects, versions and their numbers, and no comment is left over. */
  lemma PlacedOnceKeepsAll(lines: seq<Line>)
    requires Parse(lines).Ok? && SectionsUnderElements(lines) && SectionsNotRepeated(lines)
    requires RedirectsNotRepeated(lines) && CommentsTaken(lines)
    requires Once(lines, IsVersion) && Once(lines, IsMajor) && Once(lines, IsMinor)
    ensures Declares(lines) == Some(ContentsOf(Parse(lines).value))
  {
    UnderElementsInGroups(lines);
    LayoutPlacedOnce(lines);
    ParamsArePlaced(lines);
    NothingIsLostExactlyWhen(lines);
  }

  /** Without the other conditions, the layout at least is as the lines declare it when every section header sits under an
    * element and is not repeated there. */
  lemma PlacedOnceKeepsLayout(lines: seq<Line>)
    requires Parse(lines).Ok? && SectionsUnderElements(lines) && SectionsNotRepeated(lines)
    ensures Grouped(lines, Declared) == Some(Parse(lines).value)
  {
    UnderElementsInGroups(lines);
    LayoutPlacedOnce(lines);
    LayoutKeptExactlyWhen(lines);
  }

  lemma DomainPlacedOnce(domain: LineGroup)
    requires NoSection(Lead(domain.tail, StartsElement))
    requires forall j | 0 <= j < |Groups(domain.tail, StartsElement)| ::
               DistinctSections(Groups(Groups(domain.tail, StartsElement)[j].tail, StartsSection))
    ensures DomainKeeps(domain, [])
  {
    hide Keeps, Hold, Lead;
    NothingToHold(Lead(domain.tail, StartsElement));
    forall j | 0 <= j < |Groups(domain.tail, StartsElement)|
      ensures Keeps([], Groups(domain.tail, StartsElement)[j])
    {
      DistinctKeeps(Groups(domain.tail, StartsElement)[j]);
    }
  }

  lemma RunOneMore(lines: seq<Line>, line: Line)
    requires Run(lines).Ok?
    ensures Run(lines + [line]) == Step(Run(lines).value, line, |lines| + 1)
  {
    assert Front(lines + [line]) == lines;
  }

  /** A section header before the first element of its domain is taken over by the next element: here by a type that has no
    * section of its own. */
  lemma EarlySectionIsTakenOver(flags: Flags, name: string, ty: string)
    ensures var typeDef := TypeDef(None, flags, ty, Object, Some(PropertiesItem([])), name + "." + ty);
            Parse([VersionLine] + [DomainLine(flags, name)] + [SectionLine(Properties)] + [TypeLine(flags, ty, false, "object")])
              == Ok(Protocol(None, Version(0, 0), [Domain(None, flags, name, [], [typeDef], [], [])]))
  {
    var v, d, p, t := VersionLine, DomainLine(flags, name), SectionLine(Properties), TypeLine(flags, ty, false, "object");
    var s0 := NEW_PARSER.(version := Some(Version(0, 0)));
    var domain := Domain(None, flags, name, [], [], [], []);
    var s1 := s0.(domains := [domain]);
    var s2 := s1.(member := Some(Member(Properties, [])));
    var typeDef := TypeDef(None, flags, ty, Object, None, name + "." + ty);
    var s3 := s2.(element := Some(TypeElement(typeDef)));
    assert [] + [v] == [v];
    NothingRun();
    hide Run, Step;
    RunOneMore([], v);
    EarlySteps(flags, name, ty, domain, typeDef);
    RunOneMore([v], d);
    RunOneMore([v] + [d], p);
    RunOneMore([v] + [d] + [p], t);
    assert Run([v] + [d] + [p] + [t]) == Ok(s3);
    EarlyFinished(s3, domain, typeDef);
  }

  lemma EarlySteps(flags: Flags, name: string, ty: string, domain: Domain, typeDef: TypeDef)
    requires domain == Domain(None, flags, name, [], [], [], [])
    requires typeDef == TypeDef(None, flags, ty, Object, None, name + "." + ty)
    ensures var s0 := NEW_PARSER.(version := Some(Version(0, 0)));
            var s1 := s0.(domains := [domain]);
            var s2 := s1.(member := Some(Member(Properties, [])));
            && Step(NEW_PARSER, VersionLine, 1) == Ok(s0)
            && Step(s0, DomainLine(flags, name), 2) == Ok(s1)
            && Step(s1, SectionLine(Properties), 3) == Ok(s2)
            && Step(s2, TypeLine(flags, ty, false, "object"), 4) == Ok(s2.(element := Some(TypeElement(typeDef))))
  {
    hide Consumed, AddMember;
    assert [] + [domain] == [domain];
  }

  lemma EarlyFinished(s: Parser, domain: Domain, typeDef: TypeDef)
    requires domain.types == [] && typeDef.item.None?
    requires s == NEW_PARSER.(version := Some(Version(0, 0)), domains := [domain], member := Some(Member(Properties, [])),
                              element := Some(TypeElement(typeDef)))
    ensures Finish(s) ==
            Ok(Protocol(None, Version(0, 0), [domain.(types := [typeDef.(item := Some(PropertiesItem([])))])]))
  {
    var closed := domain.(types := [typeDef.(item := Some(PropertiesItem([])))]);
    assert Consumed(domain, TypeElement(closed.types[0])).types == [] + closed.types == closed.types;
    assert Front([domain]) == [] && Close(s).value.domains == [] + [closed];
    assert [] + [closed] == [closed];
  }

  /** A second redirect line of a command takes the place of the first. */
  lemma SecondRedirectReplacesFirst(flags: Flags, name: string, cmd: string, a: string, b: string)
    ensures var command := Command(None, flags, cmd, Some(Redirect(None, b, None)), [], [], name + "." + cmd);
            Parse([VersionLine] + [DomainLine(flags, name)] + [CommandLine(flags, cmd)] + [RedirectLine(a)] + [RedirectLine(b)])
              == Ok(Protocol(None, Version(0, 0), [Domain(None, flags, name, [], [], [command], [])]))
  {
    var v, d, c, ra, rb := VersionLine, DomainLine(flags, name), CommandLine(flags, cmd), RedirectLine(a), RedirectLine(b);
    var s0 := NEW_PARSER.(version := Some(Version(0, 0)));
    var domain := Domain(None, flags, name, [], [], [], []);
    var command := Command(None, flags, cmd, None, [], [], name + "." + cmd);
    var s1 := s0.(domains := [domain]);
    var s2 := s1.(element := Some(CommandElement(command)));
    var s3 := s1.(element := Some(CommandElement(command.(redirect := Some(Redirect(None, a, None))))));
    var s4 := s1.(element := Some(CommandElement(command.(redirect := Some(Redirect(None, b, None))))));
    assert [] + [v] == [v];
    NothingRun();
    hide Run, Step;
    RedirectSteps(s0, s1, s2, flags, name, cmd, a, b);
    RunOneMore([], v);
    RunOneMore([v], d);
    RunOneMore([v] + [d], c);
    RunOneMore([v] + [d] + [c], ra);
    RunOneMore([v] + [d] + [c] + [ra], rb);
    assert Run([v] + [d] + [c] + [ra] + [rb]) == Ok(s4);
    RedirectFinished(s4, domain, s4.element.value.command);
  }

  lemma RedirectSteps(s0: Parser, s1: Parser, s2: Parser, flags: Flags, name: string, cmd: string, a: string, b: string)
    requires s0 == NEW_PARSER.(version := Some(Version(0, 0)))
    requires s1 == s0.(domains := [Domain(None, flags, name, [], [], [], [])])
    requires s2 == s1.(element := Some(CommandElement(Command(None, flags, cmd, None, [], [], name + "." + cmd))))
    ensures var command := Command(None, flags, cmd, None, [], [], name + "." + cmd);
            var s3 := s1.(element := Some(CommandElement(command.(redirect := Some(Redirect(None, a, None))))));
            var s4 := s1.(element := Some(CommandElement(command.(redirect := Some(Redirect(None, b, None))))));
            && Step(NEW_PARSER, VersionLine, 1) == Ok(s0)
            && Step(s0, DomainLine(flags, name), 2) == Ok(s1)
            && Step(s1, CommandLine(flags, cmd), 3) == Ok(s2)
            && Step(s2, RedirectLine(a), 4) == Ok(s3)
            && Step(s3, RedirectLine(b), 5) == Ok(s4)
  {
    hide Consumed, AddMember;
    assert [] + [Domain(None, flags, name, [], [], [], [])] == s1.domains;
  }

  lemma RedirectFinished(s: Parser, domain: Domain, command: Command)
    requires domain.commands == []
    requires s == NEW_PARSER.(version := Some(Version(0, 0)), domains := [domain], element := Some(CommandElement(command)))
    ensures Finish(s) == Ok(Protocol(None, Version(0, 0), [domain.(commands := [command])]))
  {
    assert domain.commands + [command] == [command];
    assert Front([domain]) == [] && [] + [domain.(commands := [command])] == [domain.(commands := [command])];
  }
}
