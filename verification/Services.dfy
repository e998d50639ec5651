/** collector/service.go: one remote command for all sub-modules of a service, and the attribution of
    its output sections to sub-modules. */
module Services {
  import opened Sections
  import opened Strings

  datatype SubModule = SubModule(name: string, skipStatusCheck: bool, skipHealthzCheck: bool)

  /** What the three commands of a sub-module print. */
  datatype Output = Output(svc: string, hz: string, wk: string)

  datatype Found = Absent | Found(text: string)

  /** What is read back for a sub-module. */
  datatype Reading = Reading(svc: Found, hz: Found, wk: Found)

  const SVC := "SVC_"
  const HZ := "HZ_"
  const WK := "WK_"
  const DOCKER := "DOCKER"

  function SubSections(sub: SubModule, o: Output): seq<Section> {
    (if sub.skipStatusCheck then [] else [Section(SVC + sub.name, o.svc)])
    + (if sub.skipHealthzCheck then [] else [Section(HZ + sub.name, o.hz)])
    + [Section(WK + sub.name, o.wk)]
  }

  /** The sections of all sub-modules, in the order in which their commands are joined. */
  function AllSections(subs: seq<SubModule>, outs: seq<Output>): seq<Section>
    requires |subs| == |outs|
  {
    if subs == [] then [] else SubSections(subs[0], outs[0]) + AllSections(subs[1..], outs[1..])
  }

  predicate RunsContainers(module': string) {
    module' == "appo" || module' == "appt"
  }

  function Emitted(module': string, subs: seq<SubModule>, outs: seq<Output>, docker: string): seq<Section>
    requires |subs| == |outs|
  {
    AllSections(subs, outs) + (if RunsContainers(module') then [Section(DOCKER, docker)] else [])
  }

  // ---- what the joined command prints ----

  lemma PrintedPart(part: string, marker: string, name: string, body: string)
    requires marker == "===" + part
    ensures Print([Section(part + name, body)]) == marker + name + "===\n" + body
  {
    PrintedSection(Section(part + name, body));
    assert "===" + (part + name) == marker + name;
  }

  lemma Three(skipSvc: bool, svc: Section, skipHz: bool, hz: Section, wk: Section)
    ensures Print((if skipSvc then [] else [svc]) + (if skipHz then [] else [hz]) + [wk])
         == (if skipSvc then "" else Print([svc])) + (if skipHz then "" else Print([hz])) + Print([wk])
  {
    PrintConcat((if skipSvc then [] else [svc]) + (if skipHz then [] else [hz]), [wk]);
    PrintConcat(if skipSvc then [] else [svc], if skipHz then [] else [hz]);
    assert Print([]) == "";
  }

  /** A sub-module prints its three sections in this order, without those that are skipped. */
  lemma SubModulePrints(sub: SubModule, o: Output)
    ensures Print(SubSections(sub, o))
         == (if sub.skipStatusCheck then "" else "===SVC_" + sub.name + "===\n" + o.svc)
            + (if sub.skipHealthzCheck then "" else "===HZ_" + sub.name + "===\n" + o.hz)
            + ("===WK_" + sub.name + "===\n" + o.wk)
  {
    PrintedPart(SVC, "===SVC_", sub.name, o.svc);
    PrintedPart(HZ, "===HZ_", sub.name, o.hz);
    PrintedPart(WK, "===WK_", sub.name, o.wk);
    Three(sub.skipStatusCheck, Section(SVC + sub.name, o.svc), sub.skipHealthzCheck, Section(HZ + sub.name, o.hz),
          Section(WK + sub.name, o.wk));
  }

  /** The sub-modules print one after another, ... */
  lemma SubModulesPrint(sub: SubModule, subs: seq<SubModule>, o: Output, outs: seq<Output>)
    requires |subs| == |outs|
    ensures Print(AllSections([sub] + subs, [o] + outs)) == Print(SubSections(sub, o)) + Print(AllSections(subs, outs))
  {
    assert ([sub] + subs)[1..] == subs && ([o] + outs)[1..] == outs;
    PrintConcat(SubSections(sub, o), AllSections(subs, outs));
  }

  /** ... and two modules, no others, print their containers behind them. */
  lemma ModulePrints(module': string, subs: seq<SubModule>, outs: seq<Output>, docker: string)
    requires |subs| == |outs|
    ensures Print(Emitted(module', subs, outs, docker))
         == Print(AllSections(subs, outs))
            + (if module' == "appo" || module' == "appt" then "===DOCKER===\n" + docker else "")
  {
    var containers := Section(DOCKER, docker);
    PrintConcat(AllSections(subs, outs), if RunsContainers(module') then [containers] else []);
    PrintedPart(DOCKER, "===DOCKER", "", docker);
    assert DOCKER + "" == DOCKER && "===DOCKER" + "" + "===\n" == "===DOCKER===\n";
    assert Print([]) == "";
  }

  function Lookup(sections: map<string, string>, tag: string): Found {
    if tag in sections then Found(sections[tag]) else Absent
  }

  /** The loop that fills the modules: skipped checks are not looked up. */
  method ReadSubModules(sections: map<string, string>, subs: seq<SubModule>) returns (readings: seq<Reading>)
    ensures |readings| == |subs|
    ensures forall k :: 0 <= k < |subs| ==> readings[k] == ReadSub(sections, subs[k])
    ensures forall k :: 0 <= k < |subs| ==>
              var r, sub := readings[k], subs[k];
              && r.svc == (if sub.skipStatusCheck then Absent else Lookup(sections, "SVC_" + sub.name))
              && r.hz == (if sub.skipHealthzCheck then Absent else Lookup(sections, "HZ_" + sub.name))
              && r.wk == Lookup(sections, "WK_" + sub.name)
  {
    readings := [];
    for k := 0 to |subs|
      invariant |readings| == k
      invariant forall j :: 0 <= j < k ==> readings[j] == ReadSub(sections, subs[j])
    {
      var sub := subs[k];
      var svc, hz, wk := Absent, Absent, Absent;
      if !sub.skipStatusCheck && SVC + sub.name in sections {
        svc := Found(sections[SVC + sub.name]);
      }
      if !sub.skipHealthzCheck && HZ + sub.name in sections {
        hz := Found(sections[HZ + sub.name]);
      }
      if WK + sub.name in sections {
        wk := Found(sections[WK + sub.name]);
      }
      readings := readings + [Reading(svc, hz, wk)];
    }
  }

  function ReadSub(sections: map<string, string>, sub: SubModule): Reading {
    Reading(
      if sub.skipStatusCheck then Absent else Lookup(sections, SVC + sub.name),
      if sub.skipHealthzCheck then Absent else Lookup(sections, HZ + sub.name),
      Lookup(sections, WK + sub.name))
  }

  /** What the sub-module's own commands printed, trimmed. */
  function OwnReading(sub: SubModule, o: Output): Reading {
    Reading(
      if sub.skipStatusCheck then Absent else Found(TrimSpace(o.svc)),
      if sub.skipHealthzCheck then Absent else Found(TrimSpace(o.hz)),
      Found(TrimSpace(o.wk)))
  }

  predicate IsPart(part: string) {
    part == SVC || part == HZ || part == WK
  }

  /** A tag tells its part and its sub-module. */
  lemma TagTells(p1: string, n1: string, p2: string, n2: string)
    requires IsPart(p1) && IsPart(p2)
    ensures p1 + n1 == p2 + n2 ==> p1 == p2 && n1 == n2
    ensures p1 + n1 != DOCKER
  {
    assert (p1 + n1)[0] == p1[0] && (p2 + n2)[0] == p2[0];
    assert (p1 + n1)[|p1|..] == n1 && (p2 + n2)[|p2|..] == n2;
  }

  lemma OtherSubModule(sub: SubModule, o: Output, part: string, name: string)
    requires IsPart(part) && sub.name != name
    ensures forall s :: s in SubSections(sub, o) ==> s.tag != part + name
  {
    TagTells(SVC, sub.name, part, name);
    TagTells(HZ, sub.name, part, name);
    TagTells(WK, sub.name, part, name);
  }

  lemma {:induction false} OtherSubModules(subs: seq<SubModule>, outs: seq<Output>, part: string, name: string)
    requires |subs| == |outs| && IsPart(part)
    requires forall k :: 0 <= k < |subs| ==> subs[k].name != name
    ensures forall s :: s in AllSections(subs, outs) ==> s.tag != part + name
    decreases |subs|
  {
    if subs != [] {
      OtherSubModule(subs[0], outs[0], part, name);
      OtherSubModules(subs[1..], outs[1..], part, name);
    }
  }

  lemma {:induction false} NoContainerSection(subs: seq<SubModule>, outs: seq<Output>)
    requires |subs| == |outs|
    ensures forall s :: s in AllSections(subs, outs) ==> s.tag != DOCKER
    decreases |subs|
  {
    if subs != [] {
      TagTells(SVC, subs[0].name, SVC, "");
      TagTells(HZ, subs[0].name, SVC, "");
      TagTells(WK, subs[0].name, SVC, "");
      NoContainerSection(subs[1..], outs[1..]);
    }
  }

  /** A sub-module's own three sections are read back as its own. */
  lemma OwnSectionsRead(acc: map<string, string>, sub: SubModule, o: Output)
    ensures ReadSub(ToMap(acc, SubSections(sub, o)), sub) == OwnReading(sub, o)
  {
    TagTells(SVC, sub.name, HZ, sub.name);
    TagTells(SVC, sub.name, WK, sub.name);
    TagTells(HZ, sub.name, WK, sub.name);
    var svc, hz, wk := Section(SVC + sub.name, o.svc), Section(HZ + sub.name, o.hz), Section(WK + sub.name, o.wk);
    assert [svc, hz, wk][1..] == [hz, wk] && [svc, wk][1..] == [wk] && [hz, wk][1..] == [wk] && [wk][1..] == [];
    ToMapOne(acc, wk);
    if sub.skipStatusCheck && sub.skipHealthzCheck {
      assert SubSections(sub, o) == [wk];
    } else if sub.skipStatusCheck {
      assert SubSections(sub, o) == [hz, wk];
      ToMapOne(acc[hz.tag := TrimSpace(hz.body)], wk);
    } else if sub.skipHealthzCheck {
      assert SubSections(sub, o) == [svc, wk];
      ToMapOne(acc[svc.tag := TrimSpace(svc.body)], wk);
    } else {
      assert SubSections(sub, o) == [svc, hz, wk];
      var acc1 := acc[svc.tag := TrimSpace(svc.body)];
      assert ToMap(acc1, [hz, wk]) == ToMap(acc1[hz.tag := TrimSpace(hz.body)], [wk]);
      ToMapOne(acc1[hz.tag := TrimSpace(hz.body)], wk);
    }
  }

  lemma ToMapOne(acc: map<string, string>, s: Section)
    ensures ToMap(acc, [s]) == acc[s.tag := TrimSpace(s.body)]
  {
    assert [s][1..] == [];
  }

  lemma SameReading(a: map<string, string>, b: map<string, string>, sub: SubModule)
    requires forall part :: IsPart(part) ==> Lookup(a, part + sub.name) == Lookup(b, part + sub.name)
    ensures ReadSub(a, sub) == ReadSub(b, sub)
  {
    assert IsPart(SVC) && IsPart(HZ) && IsPart(WK);
  }

  predicate DistinctNames(subs: seq<SubModule>) {
    forall i, j :: 0 <= i < j < |subs| ==> subs[i].name != subs[j].name
  }

  /** Reading all sections gives each sub-module its own, wherever it stands in the list. */
  lemma {:induction false} EachReadsItsOwn(acc: map<string, string>, subs: seq<SubModule>, outs: seq<Output>, k: nat)
    requires |subs| == |outs| && k < |subs| && DistinctNames(subs)
    ensures ReadSub(ToMap(acc, AllSections(subs, outs)), subs[k]) == OwnReading(subs[k], outs[k])
    decreases |subs|
  {
    var own, rest := SubSections(subs[0], outs[0]), AllSections(subs[1..], outs[1..]);
    ToMapConcat(acc, own, rest);
    var acc1 := ToMap(acc, own);
    if k == 0 {
      OwnSectionsRead(acc, subs[0], outs[0]);
      forall part | IsPart(part)
        ensures Lookup(ToMap(acc1, rest), part + subs[0].name) == Lookup(acc1, part + subs[0].name)
      {
        OtherSubModules(subs[1..], outs[1..], part, subs[0].name);
        OtherTagsKeep(acc1, rest, part + subs[0].name);
      }
      SameReading(ToMap(acc1, rest), acc1, subs[0]);
    } else {
      EachReadsItsOwn(acc1, subs[1..], outs[1..], k - 1);
    }
  }

  predicate GoodName(name: string) {
    NewlineFree(name) && '=' !in name
  }

  predicate GoodBody(body: string) {
    Terminated(body) && NoMarkerLine(body)
  }

  predicate GoodOutput(o: Output) {
    GoodBody(o.svc) && GoodBody(o.hz) && GoodBody(o.wk)
  }

  lemma {:induction false} SubSectionsAreGood(subs: seq<SubModule>, outs: seq<Output>)
    requires |subs| == |outs|
    requires forall k :: 0 <= k < |subs| ==> GoodName(subs[k].name) && GoodOutput(outs[k])
    ensures forall s :: s in AllSections(subs, outs) ==> GoodSection(s) && Terminated(s.body)
    decreases |subs|
  {
    if subs != [] {
      SubSectionsAreGood(subs[1..], outs[1..]);
      assert GoodName(subs[0].name) && GoodOutput(outs[0]);
      GoodPart(SVC, subs[0].name);
      GoodPart(HZ, subs[0].name);
      GoodPart(WK, subs[0].name);
    }
  }

  /** Names without newline and '=' and commands that end their last line print good sections. */
  lemma SectionsAreGood(module': string, subs: seq<SubModule>, outs: seq<Output>, docker: string)
    requires |subs| == |outs|
    requires forall k :: 0 <= k < |subs| ==> GoodName(subs[k].name) && GoodOutput(outs[k])
    requires NoMarkerLine(docker)
    ensures GoodSections(Emitted(module', subs, outs, docker))
  {
    SubSectionsAreGood(subs, outs);
    assert GoodTag(DOCKER);
    var all, n := Emitted(module', subs, outs, docker), |AllSections(subs, outs)|;
    assert forall i :: 0 <= i < n ==> all[i] == AllSections(subs, outs)[i];
  }

  lemma GoodPart(part: string, name: string)
    requires IsPart(part) && GoodName(name)
    ensures GoodTag(part + name)
  {
  }

  // ---- and only then ----

  lemma DistinctConcat(a: seq<Section>, b: seq<Section>)
    requires DistinctTags(a) && DistinctTags(b)
    requires forall s, t :: s in a && t in b ==> s.tag != t.tag
    ensures DistinctTags(a + b)
  {
    forall i, j | 0 <= i < j < |a + b|
      ensures (a + b)[i].tag != (a + b)[j].tag
    {
      if i < |a| <= j {
        assert a[i] in a && b[j - |a|] in b;
      }
    }
  }

  lemma SubSectionsDistinct(sub: SubModule, o: Output)
    ensures DistinctTags(SubSections(sub, o))
  {
    TagTells(SVC, sub.name, HZ, sub.name);
    TagTells(SVC, sub.name, WK, sub.name);
    TagTells(HZ, sub.name, WK, sub.name);
  }

  lemma TagsAreParts(sub: SubModule, o: Output, s: Section)
    requires s in SubSections(sub, o)
    ensures exists part :: IsPart(part) && s.tag == part + sub.name
  {
    assert IsPart(SVC) && IsPart(HZ) && IsPart(WK);
  }

  lemma {:induction false} AllDistinct(subs: seq<SubModule>, outs: seq<Output>)
    requires |subs| == |outs| && DistinctNames(subs)
    ensures DistinctTags(AllSections(subs, outs))
    decreases |subs|
  {
    if subs != [] {
      var own, rest := SubSections(subs[0], outs[0]), AllSections(subs[1..], outs[1..]);
      SubSectionsDistinct(subs[0], outs[0]);
      AllDistinct(subs[1..], outs[1..]);
      forall s, t | s in own && t in rest
        ensures s.tag != t.tag
      {
        TagsAreParts(subs[0], outs[0], s);
        var part :| IsPart(part) && s.tag == part + subs[0].name;
        OtherSubModules(subs[1..], outs[1..], part, subs[0].name);
      }
      DistinctConcat(own, rest);
    }
  }

  lemma EmittedDistinct(module': string, subs: seq<SubModule>, outs: seq<Output>, docker: string)
    requires |subs| == |outs| && DistinctNames(subs)
    ensures DistinctTags(Emitted(module', subs, outs, docker))
  {
    AllDistinct(subs, outs);
    NoContainerSection(subs, outs);
    var containers := if RunsContainers(module') then [Section(DOCKER, docker)] else [];
    DistinctConcat(AllSections(subs, outs), containers);
  }

  /** The parsed output of the joined command. */
  function Parsed(
    module': string, preamble: string, subs: seq<SubModule>, outs: seq<Output>, docker: string): map<string, string>
    requires |subs| == |outs|
  {
    Sectioned(preamble + Print(Emitted(module', subs, outs, docker)))
  }

  /** Every sub-module reads its own, and the container list is there exactly when it was asked for. */
  predicate EachGetsItsOwn(
    parsed: map<string, string>, module': string, subs: seq<SubModule>, outs: seq<Output>, docker: string)
    requires |subs| == |outs|
  {
    && (forall k :: 0 <= k < |subs| ==> ReadSub(parsed, subs[k]) == OwnReading(subs[k], outs[k]))
    && Lookup(parsed, DOCKER) == if RunsContainers(module') then Found(TrimSpace(docker)) else Absent
  }

  lemma {:induction false} OwnReadingsReadBack(
      parsed: map<string, string>, subs: seq<SubModule>, outs: seq<Output>)
    requires |subs| == |outs|
    requires forall k :: 0 <= k < |subs| ==> ReadSub(parsed, subs[k]) == OwnReading(subs[k], outs[k])
    ensures forall s :: s in AllSections(subs, outs) ==> ReadBack(parsed, s)
    decreases |subs|
  {
    if subs != [] {
      assert ReadSub(parsed, subs[0]) == OwnReading(subs[0], outs[0]);
      OwnReadingsReadBack(parsed, subs[1..], outs[1..]);
    }
  }

  /** If everybody gets its own, every body but the last ends its last line. */
  lemma EachItsOwnMeansEnded(
      module': string, preamble: string, subs: seq<SubModule>, outs: seq<Output>, docker: string)
    requires |subs| == |outs| && DistinctNames(subs) && GoodBody(preamble)
    requires AllGood(Emitted(module', subs, outs, docker))
    requires EachGetsItsOwn(Parsed(module', preamble, subs, outs, docker), module', subs, outs, docker)
    ensures Ended(Emitted(module', subs, outs, docker))
  {
    var all := Emitted(module', subs, outs, docker);
    var parsed := Sectioned(preamble + Print(all));
    PreambleIsIgnored(BEGIN, preamble, Print(all));
    OwnReadingsReadBack(parsed, subs, outs);
    forall k | 0 <= k < |all|
      ensures ReadBack(parsed, all[k])
    {
      assert all[k] in all;
    }
    EmittedDistinct(module', subs, outs, docker);
    AllReadBackMeansEnded(BEGIN, all);
  }

  /** The output of good sections, parsed: every sub-module gets exactly what its own commands printed,
      under the right part; skipped checks stay absent; the container list is there exactly for the
      modules that ask for it. */
  lemma GoodSectionsReach(
      module': string, preamble: string, subs: seq<SubModule>, outs: seq<Output>, docker: string)
    requires |subs| == |outs| && DistinctNames(subs) && GoodBody(preamble)
    requires GoodSections(Emitted(module', subs, outs, docker))
    ensures EachGetsItsOwn(Parsed(module', preamble, subs, outs, docker), module', subs, outs, docker)
  {
    var all, sections := Emitted(module', subs, outs, docker), AllSections(subs, outs);
    var containers := if RunsContainers(module') then [Section(DOCKER, docker)] else [];
    PreambleIsIgnored(BEGIN, preamble, Print(all));
    ReadSections(BEGIN, all);
    var parsed := Sectioned(preamble + Print(all));
    ToMapConcat(map[], sections, containers);
    assert parsed == ToMap(ToMap(map[], sections), containers);
    NoContainerSection(subs, outs);
    OtherTagsKeep(map[], sections, DOCKER);
    if RunsContainers(module') {
      ToMapOne(ToMap(map[], sections), Section(DOCKER, docker));
    }
    forall k | 0 <= k < |subs|
      ensures ReadSub(parsed, subs[k]) == OwnReading(subs[k], outs[k])
    {
      EachReadsItsOwn(map[], subs, outs, k);
      forall part | IsPart(part)
        ensures Lookup(parsed, part + subs[k].name) == Lookup(ToMap(map[], sections), part + subs[k].name)
      {
        TagTells(part, subs[k].name, part, subs[k].name);
        OtherTagsKeep(ToMap(map[], sections), containers, part + subs[k].name);
      }
      SameReading(parsed, ToMap(map[], sections), subs[k]);
    }
  }

  /** Every sub-module gets exactly its own output, under the right part, exactly when every command but
      the last one ends its last line. */
  lemma SectionsReachTheirSubModule(
      module': string, preamble: string, subs: seq<SubModule>, outs: seq<Output>, docker: string)
    requires |subs| == |outs| && DistinctNames(subs) && GoodBody(preamble)
    requires AllGood(Emitted(module', subs, outs, docker))
    ensures EachGetsItsOwn(Parsed(module', preamble, subs, outs, docker), module', subs, outs, docker)
       <==> Ended(Emitted(module', subs, outs, docker))
  {
    if Ended(Emitted(module', subs, outs, docker)) {
      GoodSectionsReach(module', preamble, subs, outs, docker);
    }
    if EachGetsItsOwn(Parsed(module', preamble, subs, outs, docker), module', subs, outs, docker) {
      EachItsOwnMeansEnded(module', preamble, subs, outs, docker);
    }
  }
}
