/** `list_technologies` and its helpers: reading the technology sections of
    the catalogue, the category, beta and language filters with one running
    count across all groups, and the empty-result text. */
module Technologies {
  import opened Wrappers
  import opened PyStr
  import opened PySeq
  import opened Constants
  import opened ToolOutput

  /** One entry of a catalogue section; a key the JSON lacks is `None`. */
  datatype TechItem = TechItem(
    title: Option<string>,
    path: Option<string>,
    description: Option<string>,
    tags: Option<seq<string>>)

  /** A catalogue section; a missing `items` list reads as empty. */
  datatype TechSection = TechSection(title: Option<string>, items: seq<TechItem>)

  datatype Technology = Technology(title: string, url: string, description: string, tags: seq<string>)

  datatype TechnologyGroup = TechnologyGroup(title: string, technologies: seq<Technology>)

  // ---------------------------------------------------------------------------
  // parse_technologies

  /** An entry with the defaults for missing keys and the site prefix on its path. */
  function TechnologyOf(item: TechItem): Technology {
    Technology(item.title.GetOr("Unknown"), BaseUrl + item.path.GetOr(""), item.description.GetOr(""), item.tags.GetOr([]))
  }

  function TechnologiesOf(items: seq<TechItem>): (ts: seq<Technology>)
    ensures |ts| == |items|
  {
    seq(|items|, i requires 0 <= i < |items| => TechnologyOf(items[i]))
  }

  function GroupOf(section: TechSection): TechnologyGroup {
    TechnologyGroup(section.title.GetOr("Unknown"), TechnologiesOf(section.items))
  }

  /** `parse_technologies`: one group per section that has items, in section order. */
  function ParseTechnologies(sections: seq<TechSection>): (groups: seq<TechnologyGroup>)
    ensures |groups| <= |sections|
    ensures forall i :: 0 <= i < |groups| ==> groups[i].technologies != []
    decreases |sections|
  {
    if sections == [] then []
    else (if sections[0].items != [] then [GroupOf(sections[0])] else []) + ParseTechnologies(sections[1..])
  }

  /** Every section's group, empty or not. */
  function AllGroups(sections: seq<TechSection>): (gs: seq<TechnologyGroup>)
    ensures |gs| == |sections|
  {
    seq(|sections|, i requires 0 <= i < |sections| => GroupOf(sections[i]))
  }

  function HasTechnologies(): TechnologyGroup -> bool {
    (g: TechnologyGroup) => g.technologies != []
  }

  /** The parsed groups are the non-empty section groups, in order. */
  lemma {:induction false} ParseTechnologiesIsFilter(sections: seq<TechSection>)
    ensures ParseTechnologies(sections) == Filter(AllGroups(sections), HasTechnologies())
    decreases |sections|
  {
    if sections != [] {
      ParseTechnologiesIsFilter(sections[1..]);
      assert AllGroups(sections)[1..] == AllGroups(sections[1..]);
      assert AllGroups(sections)[0] == GroupOf(sections[0]);
    }
  }

  /** A group is parsed exactly when it belongs to a section with items; the
      groups keep section order and every URL is on the developer site. */
  lemma ParseTechnologiesSound(sections: seq<TechSection>)
    ensures forall g :: g in ParseTechnologies(sections) <==> exists s :: s in sections && s.items != [] && g == GroupOf(s)
    ensures IsSubseq(ParseTechnologies(sections), AllGroups(sections))
    ensures forall g, t :: g in ParseTechnologies(sections) && t in g.technologies ==> StartsWith(t.url, BaseUrl)
  {
    var all := AllGroups(sections);
    ParseTechnologiesIsFilter(sections);
    FilterIsSubseq(all, HasTechnologies());
    forall g ensures g in ParseTechnologies(sections) <==> exists s :: s in sections && s.items != [] && g == GroupOf(s) {
      FilterMembers(all, HasTechnologies(), g);
      if g in all {
        var i :| 0 <= i < |all| && all[i] == g;
        assert sections[i] in sections;
      }
      if exists s :: s in sections && s.items != [] && g == GroupOf(s) {
        var s :| s in sections && s.items != [] && g == GroupOf(s);
        var i :| 0 <= i < |sections| && sections[i] == s;
        assert all[i] == g;
      }
    }
    forall g, t | g in ParseTechnologies(sections) && t in g.technologies ensures StartsWith(t.url, BaseUrl) {
      FilterMembers(all, HasTechnologies(), g);
      var i :| 0 <= i < |all| && all[i] == g;
      var k :| 0 <= k < |g.technologies| && g.technologies[k] == t;
      assert t.url == BaseUrl + sections[i].items[k].path.GetOr("");
    }
  }

  // ---------------------------------------------------------------------------
  // apply_technology_filters

  /** A filter argument lower-cased, or `None` when it is missing or empty. */
  function Target(s: Option<string>): (t: Option<string>)
    ensures t.Some? <==> Truthy(s)
    ensures t.Some? ==> |t.value| == |s.value| && t.value == Lower(s.value)
  {
    if Truthy(s) then Some(Lower(s.value)) else None
  }

  /** The group's title contains the category, ignoring case (no category: any group). */
  predicate CategoryOk(g: TechnologyGroup, targetCategory: Option<string>) {
    !(Truthy(targetCategory) && !Contains(Lower(g.title), targetCategory.value))
  }

  /** Some tag equals the language ignoring case, or the description contains it. */
  predicate HasLanguage(t: Technology, language: string) {
    (exists k :: 0 <= k < |t.tags| && Lower(t.tags[k]) == language) || Contains(Lower(t.description), language)
  }

  /** The beta and language filters of one technology. */
  predicate TechWanted(t: Technology, includeBeta: bool, targetLanguage: Option<string>) {
    && !(!includeBeta && "beta" in t.tags)
    && !(Truthy(targetLanguage) && !HasLanguage(t, targetLanguage.value))
  }

  function Wanted(includeBeta: bool, targetLanguage: Option<string>): Technology -> bool {
    (t: Technology) => TechWanted(t, includeBeta, targetLanguage)
  }

  function InCategory(targetCategory: Option<string>): TechnologyGroup -> bool {
    (g: TechnologyGroup) => CategoryOk(g, targetCategory)
  }

  /** What the inner loop keeps of one group, and the running count after it. */
  datatype Taken = Taken(kept: seq<Technology>, count: int)

  /** The inner loop: stop as soon as the count reaches the limit, skip the
      unwanted, keep and count the rest. */
  function TakeTechnologies(ts: seq<Technology>, count: int, limit: int, wanted: Technology -> bool): (r: Taken)
    ensures r.count == count + |r.kept|
    ensures count >= limit ==> r.kept == []
    ensures count <= limit ==> r.count <= limit
    decreases |ts|
  {
    if ts == [] || count >= limit then Taken([], count)
    else if wanted(ts[0]) then
      var rest := TakeTechnologies(ts[1..], count + 1, limit, wanted);
      Taken([ts[0]] + rest.kept, rest.count)
    else TakeTechnologies(ts[1..], count, limit, wanted)
  }

  /** The outer loop from a running count: groups outside the category are
      skipped, a group keeps its title and what the inner loop kept, a group
      left empty is dropped, and the loop stops once the count reaches the limit. */
  function FilterGroups(groups: seq<TechnologyGroup>, count: int, limit: int, inCategory: TechnologyGroup -> bool,
                        wanted: Technology -> bool): seq<TechnologyGroup>
    decreases |groups|
  {
    if groups == [] then []
    else if !inCategory(groups[0]) then FilterGroups(groups[1..], count, limit, inCategory, wanted)
    else
      var t := TakeTechnologies(groups[0].technologies, count, limit, wanted);
      (if t.kept != [] then [TechnologyGroup(groups[0].title, t.kept)] else [])
      + (if t.count >= limit then [] else FilterGroups(groups[1..], t.count, limit, inCategory, wanted))
  }

  /** `apply_technology_filters`, the count starting at zero. */
  function ApplyTechnologyFiltersSpec(groups: seq<TechnologyGroup>, category: Option<string>, language: Option<string>,
                                      includeBeta: bool, limit: int): seq<TechnologyGroup>
  {
    FilterGroups(groups, 0, limit, InCategory(Target(category)), Wanted(includeBeta, Target(language)))
  }

  /** `sum(len(g.technologies) for g in groups)`. */
  function TotalTechnologies(groups: seq<TechnologyGroup>): nat
    decreases |groups|
  {
    if groups == [] then 0 else |groups[0].technologies| + TotalTechnologies(groups[1..])
  }

  lemma {:induction false} TotalAppend(a: seq<TechnologyGroup>, b: seq<TechnologyGroup>)
    ensures TotalTechnologies(a + b) == TotalTechnologies(a) + TotalTechnologies(b)
    decreases |a|
  {
    if a == [] {
      assert a + b == b;
    } else {
      assert (a + b)[1..] == a[1..] + b;
      TotalAppend(a[1..], b);
    }
  }

  /** The count never passes the limit: the technologies kept from a running
      count add up to at most what the limit leaves. */
  lemma {:induction false} FilterGroupsBound(groups: seq<TechnologyGroup>, count: int, limit: int,
                                             inCategory: TechnologyGroup -> bool, wanted: Technology -> bool)
    ensures count + TotalTechnologies(FilterGroups(groups, count, limit, inCategory, wanted))
            <= if count <= limit then limit else count
    decreases |groups|
  {
    if groups != [] {
      FilterGroupsBound(groups[1..], count, limit, inCategory, wanted);
      if inCategory(groups[0]) {
        var t := TakeTechnologies(groups[0].technologies, count, limit, wanted);
        var head := if t.kept != [] then [TechnologyGroup(groups[0].title, t.kept)] else [];
        var tail := if t.count >= limit then [] else FilterGroups(groups[1..], t.count, limit, inCategory, wanted);
        FilterGroupsBound(groups[1..], t.count, limit, inCategory, wanted);
        TotalAppend(head, tail);
        assert TotalTechnologies(head) == |t.kept| by {
          if t.kept != [] {
            assert head[1..] == [];
          }
        }
      }
    }
  }

  /** What the inner loop keeps is an order-preserving selection of wanted technologies. */
  lemma {:induction false} TakeTechnologiesSound(ts: seq<Technology>, count: int, limit: int, wanted: Technology -> bool)
    ensures var r := TakeTechnologies(ts, count, limit, wanted);
            IsSubseq(r.kept, ts) && forall t :: t in r.kept ==> wanted(t)
    decreases |ts|
  {
    if ts != [] && count < limit {
      var c := if wanted(ts[0]) then count + 1 else count;
      var rest := TakeTechnologies(ts[1..], c, limit, wanted);
      TakeTechnologiesSound(ts[1..], c, limit, wanted);
      if wanted(ts[0]) {
        assert ([ts[0]] + rest.kept)[1..] == rest.kept;
      } else {
        SubseqCons(ts[0], rest.kept, ts[1..]);
        assert [ts[0]] + ts[1..] == ts;
      }
    } else {
      assert TakeTechnologies(ts, count, limit, wanted).kept == [];
    }
  }

  /** A returned group is a group from the input with the same title, inside
      the category, holding a non-empty order-preserving selection of that
      group's technologies, all wanted. */
  predicate FromGroup(g: TechnologyGroup, h: TechnologyGroup, inCategory: TechnologyGroup -> bool, wanted: Technology -> bool) {
    && g.title == h.title
    && inCategory(h)
    && g.technologies != []
    && IsSubseq(g.technologies, h.technologies)
    && forall t :: t in g.technologies ==> wanted(t)
  }

  lemma {:induction false} FilterGroupsSound(groups: seq<TechnologyGroup>, count: int, limit: int,
                                             inCategory: TechnologyGroup -> bool, wanted: Technology -> bool)
    ensures forall g :: g in FilterGroups(groups, count, limit, inCategory, wanted) ==>
              exists h :: h in groups && FromGroup(g, h, inCategory, wanted)
    decreases |groups|
  {
    if groups != [] {
      var r := FilterGroups(groups, count, limit, inCategory, wanted);
      FilterGroupsSound(groups[1..], count, limit, inCategory, wanted);
      var t := TakeTechnologies(groups[0].technologies, count, limit, wanted);
      FilterGroupsSound(groups[1..], t.count, limit, inCategory, wanted);
      TakeTechnologiesSound(groups[0].technologies, count, limit, wanted);
      forall g | g in r ensures exists h :: h in groups && FromGroup(g, h, inCategory, wanted) {
        if !inCategory(groups[0]) {
          assert g in FilterGroups(groups[1..], count, limit, inCategory, wanted);
          var h :| h in groups[1..] && FromGroup(g, h, inCategory, wanted);
          assert h in groups;
        } else if t.kept != [] && g == TechnologyGroup(groups[0].title, t.kept) {
          assert FromGroup(g, groups[0], inCategory, wanted);
        } else {
          assert g in FilterGroups(groups[1..], t.count, limit, inCategory, wanted);
          var h :| h in groups[1..] && FromGroup(g, h, inCategory, wanted);
          assert h in groups;
        }
      }
    }
  }

  /** The titles of `groups`, in order. */
  function GroupTitles(groups: seq<TechnologyGroup>): (r: seq<string>)
    ensures |r| == |groups|
    decreases |groups|
  {
    if groups == [] then [] else [groups[0].title] + GroupTitles(groups[1..])
  }

  /** The kept groups come in the order of the input groups. */
  lemma {:induction false} FilterGroupsOrdered(groups: seq<TechnologyGroup>, count: int, limit: int,
                                               inCategory: TechnologyGroup -> bool, wanted: Technology -> bool)
    ensures IsSubseq(GroupTitles(FilterGroups(groups, count, limit, inCategory, wanted)), GroupTitles(groups))
    decreases |groups|
  {
    if groups != [] {
      var x, tail := groups[0].title, GroupTitles(groups[1..]);
      var r := FilterGroups(groups, count, limit, inCategory, wanted);
      if !inCategory(groups[0]) {
        FilterGroupsOrdered(groups[1..], count, limit, inCategory, wanted);
        SubseqCons(x, GroupTitles(r), tail);
      } else {
        var t := TakeTechnologies(groups[0].technologies, count, limit, wanted);
        var rest := if t.count >= limit then [] else FilterGroups(groups[1..], t.count, limit, inCategory, wanted);
        if t.count >= limit {
          assert IsSubseq(GroupTitles(rest), tail);
        } else {
          FilterGroupsOrdered(groups[1..], t.count, limit, inCategory, wanted);
        }
        if t.kept != [] {
          assert r[0].title == x && r[1..] == rest;
          SubseqPrepend(x, GroupTitles(rest), tail);
        } else {
          assert r == rest;
          SubseqCons(x, GroupTitles(rest), tail);
        }
      }
    }
  }

  /** Every technology the filters would keep, group by group, with no limit. */
  function UnboundedGroups(groups: seq<TechnologyGroup>, inCategory: TechnologyGroup -> bool,
                           wanted: Technology -> bool): (r: seq<TechnologyGroup>)
    ensures forall i :: 0 <= i < |r| ==> r[i].technologies != []
    decreases |groups|
  {
    if groups == [] then []
    else
      var kept := Filter(groups[0].technologies, wanted);
      (if inCategory(groups[0]) && kept != [] then [TechnologyGroup(groups[0].title, kept)] else [])
      + UnboundedGroups(groups[1..], inCategory, wanted)
  }

  /** Below the limit the inner loop keeps exactly the wanted technologies. */
  lemma {:induction false} TakeTechnologiesUnbounded(ts: seq<Technology>, count: int, limit: int, wanted: Technology -> bool)
    requires count + |Filter(ts, wanted)| <= limit
    ensures TakeTechnologies(ts, count, limit, wanted).kept == Filter(ts, wanted)
    decreases |ts|
  {
    if ts != [] {
      if count >= limit {
        assert Filter(ts, wanted) == [];
      } else if wanted(ts[0]) {
        TakeTechnologiesUnbounded(ts[1..], count + 1, limit, wanted);
      } else {
        TakeTechnologiesUnbounded(ts[1..], count, limit, wanted);
      }
    }
  }

  lemma NoTotalNoGroups(gs: seq<TechnologyGroup>)
    requires forall i :: 0 <= i < |gs| ==> gs[i].technologies != []
    requires TotalTechnologies(gs) == 0
    ensures gs == []
  {
  }

  /** When everything the filters would keep fits under the limit, the count
      cuts nothing: the result is the unbounded selection. */
  lemma {:induction false} FilterGroupsUnbounded(groups: seq<TechnologyGroup>, count: int, limit: int,
                                                 inCategory: TechnologyGroup -> bool, wanted: Technology -> bool)
    requires count + TotalTechnologies(UnboundedGroups(groups, inCategory, wanted)) <= limit
    ensures FilterGroups(groups, count, limit, inCategory, wanted) == UnboundedGroups(groups, inCategory, wanted)
    decreases |groups|
  {
    if groups != [] {
      var kept := Filter(groups[0].technologies, wanted);
      var head := if inCategory(groups[0]) && kept != [] then [TechnologyGroup(groups[0].title, kept)] else [];
      var rest := UnboundedGroups(groups[1..], inCategory, wanted);
      TotalAppend(head, rest);
      if inCategory(groups[0]) {
        assert TotalTechnologies(head) == |kept| by {
          if kept != [] {
            assert head[1..] == [];
          }
        }
        TakeTechnologiesUnbounded(groups[0].technologies, count, limit, wanted);
        var t := TakeTechnologies(groups[0].technologies, count, limit, wanted);
        if t.count >= limit {
          NoTotalNoGroups(rest);
        } else {
          FilterGroupsUnbounded(groups[1..], t.count, limit, inCategory, wanted);
        }
      } else {
        FilterGroupsUnbounded(groups[1..], count, limit, inCategory, wanted);
      }
    }
  }

  /** The filters as the tool applies them: at most `limit` technologies
      (none for a negative limit), every group non-empty and drawn from an input
      group of the same title inside the category, every technology passing
      the beta and language filters; and when the limit is large enough,
      nothing wanted is left out. */
  lemma ApplyTechnologyFiltersCorrect(groups: seq<TechnologyGroup>, category: Option<string>, language: Option<string>,
                                      includeBeta: bool, limit: int)
    ensures var inCategory := InCategory(Target(category));
            var wanted := Wanted(includeBeta, Target(language));
            var r := ApplyTechnologyFiltersSpec(groups, category, language, includeBeta, limit);
            && TotalTechnologies(r) <= (if limit < 0 then 0 else limit)
            && (forall g :: g in r ==> exists h :: h in groups && FromGroup(g, h, inCategory, wanted))
            && IsSubseq(GroupTitles(r), GroupTitles(groups))
            && (TotalTechnologies(UnboundedGroups(groups, inCategory, wanted)) <= limit ==> r == UnboundedGroups(groups, inCategory, wanted))
  {
    var inCategory := InCategory(Target(category));
    var wanted := Wanted(includeBeta, Target(language));
    FilterGroupsBound(groups, 0, limit, inCategory, wanted);
    FilterGroupsSound(groups, 0, limit, inCategory, wanted);
    FilterGroupsOrdered(groups, 0, limit, inCategory, wanted);
    if TotalTechnologies(UnboundedGroups(groups, inCategory, wanted)) <= limit {
      FilterGroupsUnbounded(groups, 0, limit, inCategory, wanted);
    }
  }

  /** With beta excluded no technology tagged "beta" comes back. */
  lemma ApplyTechnologyFiltersNoBeta(groups: seq<TechnologyGroup>, category: Option<string>, language: Option<string>, limit: int)
    ensures forall g, t :: g in ApplyTechnologyFiltersSpec(groups, category, language, false, limit) && t in g.technologies ==>
              "beta" !in t.tags
  {
    var inCategory := InCategory(Target(category));
    var wanted := Wanted(false, Target(language));
    FilterGroupsSound(groups, 0, limit, inCategory, wanted);
    forall g, t | g in ApplyTechnologyFiltersSpec(groups, category, language, false, limit) && t in g.technologies
      ensures "beta" !in t.tags
    {
      var h :| h in groups && FromGroup(g, h, inCategory, wanted);
      assert wanted(t);
    }
  }

  /** The inner loop of `apply_technology_filters` over one group. */
  method TakeGroupTechnologies(ts: seq<Technology>, count0: int, limit: int, includeBeta: bool,
                               targetLanguage: Option<string>)
    returns (kept: seq<Technology>, count: int)
    ensures Taken(kept, count) == TakeTechnologies(ts, count0, limit, Wanted(includeBeta, targetLanguage))
  {
    ghost var wanted := Wanted(includeBeta, targetLanguage);
    kept := [];
    count := count0;
    var j := 0;
    while j < |ts|
      invariant 0 <= j <= |ts|
      invariant kept + TakeTechnologies(ts[j..], count, limit, wanted).kept == TakeTechnologies(ts, count0, limit, wanted).kept
      invariant TakeTechnologies(ts[j..], count, limit, wanted).count == TakeTechnologies(ts, count0, limit, wanted).count
    {
      if count >= limit {
        break;
      }
      var tech := ts[j];
      assert ts[j..][1..] == ts[j + 1..];
      if TechWanted(tech, includeBeta, targetLanguage) {
        kept := kept + [tech];
        count := count + 1;
      }
      j := j + 1;
    }
  }

  /** One unfolding of the outer loop at a group inside the category. */
  lemma FilterGroupsUnfold(rest: seq<TechnologyGroup>, count: int, limit: int, inCategory: TechnologyGroup -> bool,
                           wanted: Technology -> bool)
    requires rest != [] && inCategory(rest[0])
    ensures var t := TakeTechnologies(rest[0].technologies, count, limit, wanted);
            FilterGroups(rest, count, limit, inCategory, wanted)
            == (if t.kept != [] then [TechnologyGroup(rest[0].title, t.kept)] else [])
               + (if t.count >= limit then [] else FilterGroups(rest[1..], t.count, limit, inCategory, wanted))
  {
  }

  /** One step of the outer loop over a group inside the category: the inner
      loop kept `kept` and left the count at `count'`, and `filtered'` is the
      list after the group. */
  lemma FilterGroupsTakeStep(rest: seq<TechnologyGroup>, count: int, limit: int, inCategory: TechnologyGroup -> bool,
                             wanted: Technology -> bool, spec: seq<TechnologyGroup>,
                             filtered: seq<TechnologyGroup>, kept: seq<Technology>, count': int,
                             filtered': seq<TechnologyGroup>)
    requires rest != [] && inCategory(rest[0])
    requires filtered + FilterGroups(rest, count, limit, inCategory, wanted) == spec
    requires Taken(kept, count') == TakeTechnologies(rest[0].technologies, count, limit, wanted)
    requires filtered' == filtered + if kept != [] then [TechnologyGroup(rest[0].title, kept)] else []
    ensures count' >= limit ==> filtered' == spec
    ensures count' < limit ==> filtered' + FilterGroups(rest[1..], count', limit, inCategory, wanted) == spec
  {
    FilterGroupsUnfold(rest, count, limit, inCategory, wanted);
    var head := if kept != [] then [TechnologyGroup(rest[0].title, kept)] else [];
    if count' >= limit {
      assert head + [] == head;
    } else {
      var next := FilterGroups(rest[1..], count', limit, inCategory, wanted);
      assert filtered + (head + next) == (filtered + head) + next;
    }
  }

  /** `apply_technology_filters`: one count across every group. */
  method ApplyTechnologyFilters(groups: seq<TechnologyGroup>, category: Option<string>, language: Option<string>,
                                includeBeta: bool, limit: int)
    returns (filtered: seq<TechnologyGroup>)
    ensures filtered == ApplyTechnologyFiltersSpec(groups, category, language, includeBeta, limit)
  {
    filtered := [];
    var count := 0;
    var targetCategory := Target(category);
    var targetLanguage := Target(language);
    ghost var inCategory := InCategory(targetCategory);
    ghost var wanted := Wanted(includeBeta, targetLanguage);
    ghost var spec := ApplyTechnologyFiltersSpec(groups, category, language, includeBeta, limit);
    var i := 0;
    while i < |groups|
      invariant 0 <= i <= |groups|
      invariant filtered + FilterGroups(groups[i..], count, limit, inCategory, wanted) == spec
    {
      var group := groups[i];
      assert groups[i..][1..] == groups[i + 1..];
      if !CategoryOk(group, targetCategory) {
      } else {
        ghost var before := filtered;
        ghost var count0 := count;
        var kept;
        kept, count := TakeGroupTechnologies(group.technologies, count, limit, includeBeta, targetLanguage);
        if kept != [] {
          filtered := filtered + [TechnologyGroup(group.title, kept)];
        }
        FilterGroupsTakeStep(groups[i..], count0, limit, inCategory, wanted, spec, before, kept, count, filtered);
        if count >= limit {
          break;
        }
      }
      i := i + 1;
    }
  }

  // ---------------------------------------------------------------------------
  // format_technologies and the tool

  const NoTechnologiesText := "No technologies found matching your criteria."

  /** The listing's counts line and its groups. */
  datatype TechnologiesReport = TechnologiesReport(total: nat, categories: nat, groups: seq<TechnologyGroup>)

  /** `format_technologies`: the fixed text for no groups, else the report. */
  function FormatTechnologies(groups: seq<TechnologyGroup>): (out: Output<TechnologiesReport>)
    ensures out.Text? <==> groups == []
  {
    if groups == [] then Text(NoTechnologiesText)
    else Report(TechnologiesReport(TotalTechnologies(groups), |groups|, groups))
  }

  function ListTechnologiesError(e: string): string {
    "Error: Failed to list technologies: " + e
  }

  /** `list_technologies`, given what fetching the catalogue yields. */
  function ListTechnologiesSpec(fetched: Result<seq<TechSection>, string>, category: Option<string>,
                                language: Option<string>, includeBeta: bool, limit: int): Output<TechnologiesReport>
  {
    match fetched
    case Failure(e) => Text(ListTechnologiesError(e))
    case Success(sections) =>
      FormatTechnologies(ApplyTechnologyFiltersSpec(ParseTechnologies(sections), category, language, includeBeta, limit))
  }

  method ListTechnologies(fetched: Result<seq<TechSection>, string>, category: Option<string>,
                          language: Option<string>, includeBeta: bool, limit: int)
    returns (out: Output<TechnologiesReport>)
    ensures out == ListTechnologiesSpec(fetched, category, language, includeBeta, limit)
  {
    if fetched.Failure? {
      return Text(ListTechnologiesError(fetched.error));
    }
    var technologies := ParseTechnologies(fetched.value);
    var filtered := ApplyTechnologyFilters(technologies, category, language, includeBeta, limit);
    out := FormatTechnologies(filtered);
  }

  /** A listing counts at most `limit` technologies, each from a catalogue
      section with the site prefix on its URL; nothing left means the fixed text. */
  lemma ListTechnologiesSound(sections: seq<TechSection>, category: Option<string>, language: Option<string>,
                              includeBeta: bool, limit: int)
    ensures var out := ListTechnologiesSpec(Success(sections), category, language, includeBeta, limit);
            && (out.Text? ==> out.text == NoTechnologiesText)
            && (out.Report? ==>
                  && 0 < out.report.total <= limit
                  && forall g, t :: g in out.report.groups && t in g.technologies ==>
                       StartsWith(t.url, BaseUrl) && TechWanted(t, includeBeta, Target(language)))
  {
    var parsed := ParseTechnologies(sections);
    var r := ApplyTechnologyFiltersSpec(parsed, category, language, includeBeta, limit);
    ParseTechnologiesSound(sections);
    ApplyTechnologyFiltersCorrect(parsed, category, language, includeBeta, limit);
    if r != [] {
      assert TotalTechnologies(r) > 0 by {
        FilterGroupsSound(parsed, 0, limit, InCategory(Target(category)), Wanted(includeBeta, Target(language)));
        assert r[0] in r;
        var h :| h in parsed && FromGroup(r[0], h, InCategory(Target(category)), Wanted(includeBeta, Target(language)));
      }
      forall g, t | g in r && t in g.technologies
        ensures StartsWith(t.url, BaseUrl) && TechWanted(t, includeBeta, Target(language))
      {
        var h :| h in parsed && FromGroup(g, h, InCategory(Target(category)), Wanted(includeBeta, Target(language)));
        SubseqMembers(g.technologies, h.technologies, t);
      }
    }
  }
}
