/**
 * A rule instance of the build language: its output files (implicit ones
 * first, then the explicit ones in attribute order, each explicit one also
 * filed under its attribute), the errors and warnings it reports, the
 * fallbacks for visibility, distributions, licenses and attribute locations,
 * and the dependency predicates used to select its labels.
 *
 * Attribute values are records (attribute, value, explicit flag, stored
 * location, tag set). The implicit-outputs function and label parsing of the
 * package builder are parameters. The error listener is a log of events kept
 * in the rule.
 */
module Rules {
  import opened Wrappers

  datatype Label = Label(packageName: string, name: string)

  datatype Location = Location(file: string, line: nat)

  datatype AttrType =
    | LabelType | LabelListType | NodepLabelType | NodepLabelListType
    | OutputType | OutputListType | DistributionsType | LicenseType | OtherType

  datatype Transition = NoTransition | HostTransition | DataTransition

  /** An attribute of the rule class. */
  datatype Attribute = Attribute(
    name: string, attrType: AttrType, transition: Transition,
    taggable: bool, directCompileTimeInput: bool)

  datatype License = License(kinds: set<string>)

  /** An attribute value: labels (none for a null label), distributions, a license, or anything else. */
  datatype Value =
    | Labels(labels: seq<Label>)
    | Distribs(distribs: set<string>)
    | LicenseValue(license: License)
    | OtherValue

  /** One attribute of this rule with its value, whether the BUILD file set it, its location and its tags. */
  datatype AttrRecord = AttrRecord(
    attr: Attribute, value: Value, explicit: bool, location: Option<Location>, tags: seq<string>)

  datatype Visibility = PublicVisibility | PrivateVisibility | PackageGroups(groups: seq<Label>)

  /** The rule's package, as far as the rule uses it. */
  datatype Package = Package(
    name: string, defaultVisibility: Visibility,
    defaultDistribs: set<string>, defaultLicense: License)

  datatype OutputFile = OutputFile(target: Label)

  datatype Message =
    | EvalFailure(text: string)
    | IllegalOutputFileName(out: string)
    | RuleIsAlsoFile(name: string)

  /** What the rule reports to the error listener. */
  datatype Event = Error(location: Location, message: Message) | Warning(location: Location, message: Message)

  /** The exceptions `populateOutputFiles` can raise. */
  datatype PopulateError =
    | AlreadyPopulated
    | ForeignOutput(attribute: string, target: Label)

  const ERROR_RULE: string := "$error_rule"

  /* ---------------------------------------------------------------------- */
  /* Attribute records                                                       */
  /* ---------------------------------------------------------------------- */

  predicate IsOutputType(t: AttrType) {
    t == OutputType || t == OutputListType
  }

  /** The attribute types whose labels are dependencies. */
  predicate IsDependencyType(t: AttrType) {
    t == LabelType || t == LabelListType || t == NodepLabelType || t == NodepLabelListType
  }

  /** A value fits its attribute's type; a single label holds at most one. */
  predicate WellTyped(r: AttrRecord) {
    && (IsDependencyType(r.attr.attrType) || IsOutputType(r.attr.attrType) ==> r.value.Labels?)
    && (r.attr.attrType == LabelType || r.attr.attrType == NodepLabelType || r.attr.attrType == OutputType ==>
          |r.value.labels| <= 1)
    && (r.attr.attrType == DistributionsType ==> r.value.Distribs?)
    && (r.attr.attrType == LicenseType ==> r.value.LicenseValue?)
  }

  /** The attributes of a rule class have distinct names. */
  ghost predicate UniqueNames(attrs: seq<AttrRecord>) {
    forall i, j :: 0 <= i < j < |attrs| ==> attrs[i].attr.name != attrs[j].attr.name
  }

  ghost predicate ValidAttributes(attrs: seq<AttrRecord>) {
    UniqueNames(attrs) && forall r :: r in attrs ==> WellTyped(r)
  }

  /** The record of the attribute called `name`, if the rule class has one. */
  function FindAttribute(attrs: seq<AttrRecord>, name: string): (r: Option<AttrRecord>)
    ensures r.Some? ==> r.value in attrs && r.value.attr.name == name
    ensures r.None? <==> forall a :: a in attrs ==> a.attr.name != name
  {
    if attrs == [] then None
    else if attrs[0].attr.name == name then Some(attrs[0])
    else FindAttribute(attrs[1..], name)
  }

  /**
   * The value of attribute `name` when the rule class defines it with type
   * `t` and the BUILD file set it explicitly; none otherwise.
   */
  function ExplicitValue(attrs: seq<AttrRecord>, name: string, t: AttrType): Option<Value> {
    match FindAttribute(attrs, name)
    case Some(r) => if r.attr.attrType == t && r.explicit then Some(r.value) else None
    case None => None
  }

  /** With unique names, the explicit value is that of the one record that has the name, the type and the flag. */
  lemma ExplicitValueIsTheRecords(attrs: seq<AttrRecord>, name: string, t: AttrType)
    requires UniqueNames(attrs)
    ensures ExplicitValue(attrs, name, t).Some? <==>
              exists r :: r in attrs && r.attr.name == name && r.attr.attrType == t && r.explicit
    ensures forall r :: r in attrs && r.attr.name == name && r.attr.attrType == t && r.explicit ==>
              ExplicitValue(attrs, name, t) == Some(r.value)
  {
    forall r | r in attrs && r.attr.name == name
      ensures FindAttribute(attrs, name) == Some(r)
    {
      var f := FindAttribute(attrs, name).value;
      var i :| 0 <= i < |attrs| && attrs[i] == r;
      var j :| 0 <= j < |attrs| && attrs[j] == f;
      assert i == j;
    }
  }

  /* ---------------------------------------------------------------------- */
  /* Dependency predicates and label selection                               */
  /* ---------------------------------------------------------------------- */

  /**
   * A dependency predicate. The Java predicates also receive the rule; the
   * only thing they read from it, whether the attribute was set explicitly,
   * is part of the record.
   */
  type DependencyPredicate = AttrRecord -> bool

  /** `ALL_DEPS`. */
  function AllDeps(r: AttrRecord): bool {
    true
  }

  /** `NO_HOST_DEPS`: label attributes with the host transition are left out. */
  function NoHostDeps(r: AttrRecord): bool {
    if r.attr.attrType != LabelType && r.attr.attrType != LabelListType then true
    else r.attr.transition != HostTransition
  }

  /** `NO_IMPLICIT_DEPS`: only attributes set in the BUILD file. */
  function NoImplicitDeps(r: AttrRecord): bool {
    r.explicit
  }

  /** `NO_NODEP_ATTRIBUTES`: the two no-dependency label types are left out. */
  function NoNodepAttributes(r: AttrRecord): bool {
    r.attr.attrType != NodepLabelType && r.attr.attrType != NodepLabelListType
  }

  /** `DIRECT_COMPILE_TIME_INPUT`. */
  function DirectCompileTimeInput(r: AttrRecord): bool {
    r.attr.directCompileTimeInput
  }

  /** `and`: the conjunction of two predicates. */
  function And<X(!new)>(a: X -> bool, b: X -> bool): (c: X -> bool)
    ensures forall x :: c(x) <==> a(x) && b(x)
  {
    x => a(x) && b(x)
  }

  /** What the dependency predicates admit and reject. */
  lemma DependencyPredicatesAdmit(r: AttrRecord)
    ensures !IsDependencyType(r.attr.attrType) ==> NoHostDeps(r) && NoNodepAttributes(r)
    ensures !NoHostDeps(r) <==>
              (r.attr.attrType == LabelType || r.attr.attrType == LabelListType) && r.attr.transition == HostTransition
    ensures !NoNodepAttributes(r) <==> r.attr.attrType in {NodepLabelType, NodepLabelListType}
    ensures And(NoHostDeps, NoNodepAttributes)(r) <==>
              && r.attr.attrType !in {NodepLabelType, NodepLabelListType}
              && !(r.attr.attrType in {LabelType, LabelListType} && r.attr.transition == HostTransition)
  {
  }

  /** The dependency labels of a record: none for other attribute types. */
  function DependencyLabels(r: AttrRecord): seq<Label> {
    if IsDependencyType(r.attr.attrType) && r.value.Labels? then r.value.labels else []
  }

  /** The labels `getLabels` collects from the first attributes. */
  function LabelsMatching(attrs: seq<AttrRecord>, p: DependencyPredicate): set<Label> {
    if attrs == [] then {}
    else
      var last := attrs[|attrs| - 1];
      LabelsMatching(attrs[..|attrs| - 1], p) +
      (if p(last) then set l | l in DependencyLabels(last) else {})
  }

  /** A label is selected exactly when some attribute the predicate admits holds it. */
  lemma {:induction false} LabelsMatchingMembers(attrs: seq<AttrRecord>, p: DependencyPredicate, l: Label)
    ensures l in LabelsMatching(attrs, p) <==>
              exists i :: 0 <= i < |attrs| && p(attrs[i]) && l in DependencyLabels(attrs[i])
  {
    if attrs != [] {
      var init := attrs[..|attrs| - 1];
      LabelsMatchingMembers(init, p, l);
      if exists i :: 0 <= i < |attrs| && p(attrs[i]) && l in DependencyLabels(attrs[i]) {
        var i :| 0 <= i < |attrs| && p(attrs[i]) && l in DependencyLabels(attrs[i]);
        if i < |attrs| - 1 {
          assert init[i] == attrs[i];
        }
      }
      if l in LabelsMatching(init, p) {
        var i :| 0 <= i < |init| && p(init[i]) && l in DependencyLabels(init[i]);
        assert attrs[i] == init[i];
      }
    }
  }

  /** A stronger predicate selects fewer labels; `ALL_DEPS` selects them all. */
  lemma {:induction false} LabelsMatchingMonotone(attrs: seq<AttrRecord>, p: DependencyPredicate, q: DependencyPredicate)
    requires forall r :: p(r) ==> q(r)
    ensures LabelsMatching(attrs, p) <= LabelsMatching(attrs, q)
    ensures LabelsMatching(attrs, q) <= LabelsMatching(attrs, AllDeps)
  {
    if attrs != [] {
      LabelsMatchingMonotone(attrs[..|attrs| - 1], p, q);
    }
  }

  /** The labels selected by a conjunction are selected by each of its parts. */
  lemma LabelsMatchingAnd(attrs: seq<AttrRecord>, a: DependencyPredicate, b: DependencyPredicate)
    ensures LabelsMatching(attrs, And(a, b)) <= LabelsMatching(attrs, a) * LabelsMatching(attrs, b)
  {
    LabelsMatchingMonotone(attrs, And(a, b), a);
    LabelsMatchingMonotone(attrs, And(a, b), b);
  }

  /* ---------------------------------------------------------------------- */
  /* Output files                                                            */
  /* ---------------------------------------------------------------------- */

  /** The warning `addOutputFile` gives for a file named like its rule. */
  function FileWarnings(target: Label, ruleName: string, location: Location): seq<Event> {
    if target.name == ruleName then [Warning(location, RuleIsAlsoFile(ruleName))] else []
  }

  /** The implicit output files: the names that parse, in generated order. */
  function ImplicitFiles(outs: seq<string>, parse: string -> Option<Label>): seq<OutputFile> {
    if outs == [] then []
    else
      ImplicitFiles(outs[..|outs| - 1], parse) +
      (match parse(outs[|outs| - 1]) case Some(l) => [OutputFile(l)] case None => [])
  }

  /** The events of the implicit outputs: an error for a name that does not parse, else the file's warning. */
  function ImplicitEvents(outs: seq<string>, parse: string -> Option<Label>, ruleName: string, location: Location): seq<Event> {
    if outs == [] then []
    else
      ImplicitEvents(outs[..|outs| - 1], parse, ruleName, location) +
      (match parse(outs[|outs| - 1])
       case Some(l) => FileWarnings(l, ruleName, location)
       case None => [Error(location, IllegalOutputFileName(outs[|outs| - 1]))])
  }

  /** One more generated name, as `populateImplicitOutputFiles` handles it. */
  lemma ImplicitStep(files0: seq<OutputFile>, events0: seq<Event>, outs: seq<string>, i: nat,
                     parse: string -> Option<Label>, ruleName: string, location: Location)
    requires i < |outs|
    ensures parse(outs[i]).Some? ==>
              && files0 + ImplicitFiles(outs[..i + 1], parse) ==
                 (files0 + ImplicitFiles(outs[..i], parse)) + [OutputFile(parse(outs[i]).value)]
              && events0 + ImplicitEvents(outs[..i + 1], parse, ruleName, location) ==
                 (events0 + ImplicitEvents(outs[..i], parse, ruleName, location)) +
                 FileWarnings(parse(outs[i]).value, ruleName, location)
    ensures parse(outs[i]).None? ==>
              && ImplicitFiles(outs[..i + 1], parse) == ImplicitFiles(outs[..i], parse)
              && events0 + ImplicitEvents(outs[..i + 1], parse, ruleName, location) ==
                 (events0 + ImplicitEvents(outs[..i], parse, ruleName, location)) +
                 [Error(location, IllegalOutputFileName(outs[i]))]
    ensures (exists o :: o in outs[..i + 1] && parse(o).None?) <==>
            (exists o :: o in outs[..i] && parse(o).None?) || parse(outs[i]).None?
  {
    assert outs[..i + 1][..i] == outs[..i];
    assert outs[..i + 1] == outs[..i] + [outs[i]];
    var eventsBefore := ImplicitEvents(outs[..i], parse, ruleName, location);
    match parse(outs[i])
    case Some(l) =>
      ConcatAssociative(files0, ImplicitFiles(outs[..i], parse), [OutputFile(l)]);
      ConcatAssociative(events0, eventsBefore, FileWarnings(l, ruleName, location));
    case None =>
      ConcatAssociative(events0, eventsBefore, [Error(location, IllegalOutputFileName(outs[i]))]);
  }

  /** Every implicit file comes from a generated name that parses to its label. */
  lemma {:induction false} ImplicitFilesAreParsed(outs: seq<string>, parse: string -> Option<Label>)
    ensures forall f :: f in ImplicitFiles(outs, parse) ==> exists o :: o in outs && parse(o) == Some(f.target)
  {
    if outs != [] {
      var init := outs[..|outs| - 1];
      ImplicitFilesAreParsed(init, parse);
      forall f | f in ImplicitFiles(outs, parse)
        ensures exists o :: o in outs && parse(o) == Some(f.target)
      {
        if f in ImplicitFiles(init, parse) {
          var o :| o in init && parse(o) == Some(f.target);
          assert o in outs;
        } else {
          assert parse(outs[|outs| - 1]) == Some(f.target);
        }
      }
    }
  }

  /** The implicit outputs report an error exactly when some generated name does not parse. */
  lemma {:induction false} ImplicitErrorsAreUnparsable(
    outs: seq<string>, parse: string -> Option<Label>, ruleName: string, location: Location)
    ensures (exists e :: e in ImplicitEvents(outs, parse, ruleName, location) && e.Error?) <==>
              exists o :: o in outs && parse(o).None?
  {
    if outs != [] {
      var init := outs[..|outs| - 1];
      var last := outs[|outs| - 1];
      ImplicitErrorsAreUnparsable(init, parse, ruleName, location);
      var events := ImplicitEvents(outs, parse, ruleName, location);
      var tail := match parse(last)
                  case Some(l) => FileWarnings(l, ruleName, location)
                  case None => [Error(location, IllegalOutputFileName(last))];
      assert events == ImplicitEvents(init, parse, ruleName, location) + tail;
      assert outs == init + [last];
      if exists o :: o in outs && parse(o).None? {
        var o :| o in outs && parse(o).None?;
        if o != last {
          assert o in init;
          var e :| e in ImplicitEvents(init, parse, ruleName, location) && e.Error?;
          assert e in events;
        } else {
          var e := Error(location, IllegalOutputFileName(last));
          assert tail == [e];
          assert e in events && e.Error?;
        }
      }
      if exists e :: e in events && e.Error? {
        var e :| e in events && e.Error?;
        if e in tail {
          assert parse(last).None? && last in outs;
        } else {
          assert e in ImplicitEvents(init, parse, ruleName, location);
          var o :| o in init && parse(o).None?;
          assert o in outs;
        }
      }
    }
  }

  /** The output labels of a record: those of an output attribute, none otherwise. */
  function OutputLabels(r: AttrRecord): seq<Label> {
    if IsOutputType(r.attr.attrType) && r.value.Labels? then r.value.labels else []
  }

  /** The labels of one attribute, each paired with the attribute's name. */
  function PairsOf(attrName: string, labels: seq<Label>): (pairs: seq<(string, Label)>)
    ensures |pairs| == |labels|
    ensures forall i :: 0 <= i < |labels| ==> pairs[i] == (attrName, labels[i])
  {
    seq(|labels|, i requires 0 <= i < |labels| => (attrName, labels[i]))
  }

  /** The explicit outputs as (attribute name, label) pairs in attribute declaration order. */
  function ExplicitOutputs(attrs: seq<AttrRecord>): seq<(string, Label)> {
    if attrs == [] then []
    else
      var last := attrs[|attrs| - 1];
      ExplicitOutputs(attrs[..|attrs| - 1]) + PairsOf(last.attr.name, OutputLabels(last))
  }

  /** The files of explicit outputs. */
  function FilesOf(pairs: seq<(string, Label)>): seq<OutputFile> {
    if pairs == [] then [] else FilesOf(pairs[..|pairs| - 1]) + [OutputFile(pairs[|pairs| - 1].1)]
  }

  /** The per-attribute output map entries of explicit outputs, in insertion order. */
  function FileMapOf(pairs: seq<(string, Label)>): seq<(string, OutputFile)> {
    if pairs == [] then [] else FileMapOf(pairs[..|pairs| - 1]) + [(pairs[|pairs| - 1].0, OutputFile(pairs[|pairs| - 1].1))]
  }

  /** The warnings of explicit outputs. */
  function ExplicitEvents(pairs: seq<(string, Label)>, ruleName: string, location: Location): seq<Event> {
    if pairs == [] then []
    else ExplicitEvents(pairs[..|pairs| - 1], ruleName, location) + FileWarnings(pairs[|pairs| - 1].1, ruleName, location)
  }

  /** Explicit outputs never produce an error event. */
  lemma {:induction false} ExplicitEventsAreWarnings(pairs: seq<(string, Label)>, ruleName: string, location: Location)
    ensures forall e :: e in ExplicitEvents(pairs, ruleName, location) ==> e == Warning(location, RuleIsAlsoFile(ruleName))
  {
    if pairs != [] {
      ExplicitEventsAreWarnings(pairs[..|pairs| - 1], ruleName, location);
    }
  }

  /** The files of consecutive outputs add up. */
  lemma {:induction false} FilesAppend(a: seq<(string, Label)>, b: seq<(string, Label)>)
    ensures FilesOf(a + b) == FilesOf(a) + FilesOf(b)
    decreases |b|
  {
    if b != [] {
      FilesAppend(a, b[..|b| - 1]);
      assert (a + b)[..|a + b| - 1] == a + b[..|b| - 1];
    } else {
      assert a + b == a;
    }
  }

  /** The map entries of consecutive outputs add up. */
  lemma {:induction false} FileMapAppend(a: seq<(string, Label)>, b: seq<(string, Label)>)
    ensures FileMapOf(a + b) == FileMapOf(a) + FileMapOf(b)
    decreases |b|
  {
    if b != [] {
      FileMapAppend(a, b[..|b| - 1]);
      assert (a + b)[..|a + b| - 1] == a + b[..|b| - 1];
    } else {
      assert a + b == a;
    }
  }

  /** The warnings of consecutive outputs add up. */
  lemma {:induction false} EventsAppend(a: seq<(string, Label)>, b: seq<(string, Label)>, ruleName: string, location: Location)
    ensures ExplicitEvents(a + b, ruleName, location) == ExplicitEvents(a, ruleName, location) + ExplicitEvents(b, ruleName, location)
    decreases |b|
  {
    if b != [] {
      EventsAppend(a, b[..|b| - 1], ruleName, location);
      assert (a + b)[..|a + b| - 1] == a + b[..|b| - 1];
    } else {
      assert a + b == a;
    }
  }

  /** Adding the first `k` of `p` on top of the outputs of `done` gives the outputs of their concatenation. */
  lemma ExtendOutputs(files0: seq<OutputFile>, map0: seq<(string, OutputFile)>, events0: seq<Event>,
                      done: seq<(string, Label)>, p: seq<(string, Label)>, k: nat, ruleName: string, location: Location)
    requires k <= |p|
    ensures (files0 + FilesOf(done)) + FilesOf(p[..k]) == files0 + FilesOf(done + p[..k])
    ensures (map0 + FileMapOf(done)) + FileMapOf(p[..k]) == map0 + FileMapOf(done + p[..k])
    ensures (events0 + ExplicitEvents(done, ruleName, location)) + ExplicitEvents(p[..k], ruleName, location)
            == events0 + ExplicitEvents(done + p[..k], ruleName, location)
  {
    FilesAppend(done, p[..k]);
    FileMapAppend(done, p[..k]);
    EventsAppend(done, p[..k], ruleName, location);
    ConcatAssociative(files0, FilesOf(done), FilesOf(p[..k]));
    ConcatAssociative(map0, FileMapOf(done), FileMapOf(p[..k]));
    ConcatAssociative(events0, ExplicitEvents(done, ruleName, location), ExplicitEvents(p[..k], ruleName, location));
  }

  lemma ConcatAssociative<T>(a: seq<T>, b: seq<T>, c: seq<T>)
    ensures (a + b) + c == a + (b + c)
  {
  }

  /** One more explicit output, as `addLabelOutput` adds it. */
  lemma ExplicitStep(files0: seq<OutputFile>, map0: seq<(string, OutputFile)>, events0: seq<Event>,
                     pairs: seq<(string, Label)>, j: nat, ruleName: string, location: Location)
    requires j < |pairs|
    ensures files0 + FilesOf(pairs[..j + 1]) == (files0 + FilesOf(pairs[..j])) + [OutputFile(pairs[j].1)]
    ensures map0 + FileMapOf(pairs[..j + 1]) == (map0 + FileMapOf(pairs[..j])) + [(pairs[j].0, OutputFile(pairs[j].1))]
    ensures events0 + ExplicitEvents(pairs[..j + 1], ruleName, location) ==
            (events0 + ExplicitEvents(pairs[..j], ruleName, location)) + FileWarnings(pairs[j].1, ruleName, location)
  {
    assert pairs[..j + 1][..j] == pairs[..j];
    ConcatAssociative(files0, FilesOf(pairs[..j]), [OutputFile(pairs[j].1)]);
    ConcatAssociative(map0, FileMapOf(pairs[..j]), [(pairs[j].0, OutputFile(pairs[j].1))]);
    ConcatAssociative(events0, ExplicitEvents(pairs[..j], ruleName, location), FileWarnings(pairs[j].1, ruleName, location));
  }

  /** The labels of the first `k` pairs belong to package `pkgName`. */
  ghost predicate InPackage(pairs: seq<(string, Label)>, k: nat, pkgName: string) {
    forall i :: 0 <= i < k && i < |pairs| ==> pairs[i].1.packageName == pkgName
  }

  /** The number of explicit outputs accepted before the first one in another package. */
  function Accepted(pairs: seq<(string, Label)>, pkgName: string): (k: nat)
    ensures k <= |pairs|
    ensures InPackage(pairs, k, pkgName)
    ensures k < |pairs| ==> pairs[k].1.packageName != pkgName
  {
    if pairs == [] || pairs[0].1.packageName != pkgName then 0
    else 1 + Accepted(pairs[1..], pkgName)
  }

  /** `ExplicitOutputs` of a prefix of the attributes is a prefix of `ExplicitOutputs`. */
  lemma {:induction false} ExplicitOutputsPrefix(attrs: seq<AttrRecord>, n: nat)
    requires n <= |attrs|
    ensures ExplicitOutputs(attrs[..n]) <= ExplicitOutputs(attrs)
    decreases |attrs| - n
  {
    if n == |attrs| {
      assert attrs[..n] == attrs;
    } else {
      ExplicitOutputsPrefix(attrs, n + 1);
      assert attrs[..n + 1][..n] == attrs[..n];
    }
  }

  /** Once a prefix is all in the package and the next pair is not, that prefix is what is accepted. */
  lemma {:induction false} AcceptedAtFirstForeign(pairs: seq<(string, Label)>, pkgName: string, k: nat)
    requires k < |pairs| && InPackage(pairs, k, pkgName) && pairs[k].1.packageName != pkgName
    ensures Accepted(pairs, pkgName) == k
  {
    if k > 0 {
      assert pairs[0].1.packageName == pkgName;
      AcceptedAtFirstForeign(pairs[1..], pkgName, k - 1);
    }
  }

  /**
   * When the explicit outputs of the attributes before `i` are all in the
   * package and one of attribute `i`'s is not, what was added up to it is
   * what is accepted of all explicit outputs, and the first refused is that one.
   */
  lemma {:induction false} StopsAtForeign(attrs: seq<AttrRecord>, i: nat, pkgName: string, ruleName: string, location: Location,
                                          files0: seq<OutputFile>, map0: seq<(string, OutputFile)>, events0: seq<Event>,
                                          files: seq<OutputFile>, fileMap: seq<(string, OutputFile)>, events: seq<Event>,
                                          err: PopulateError)
    requires i < |attrs|
    requires InPackage(ExplicitOutputs(attrs[..i]), |ExplicitOutputs(attrs[..i])|, pkgName)
    requires var done := ExplicitOutputs(attrs[..i]);
             var p := PairsOf(attrs[i].attr.name, OutputLabels(attrs[i]));
             var k := Accepted(p, pkgName);
             && k < |p|
             && files == files0 + FilesOf(done + p[..k])
             && fileMap == map0 + FileMapOf(done + p[..k])
             && events == events0 + ExplicitEvents(done + p[..k], ruleName, location)
             && err == ForeignOutput(p[k].0, p[k].1)
    ensures var all := ExplicitOutputs(attrs);
            var k := Accepted(all, pkgName);
            && k < |all|
            && files == files0 + FilesOf(all[..k])
            && fileMap == map0 + FileMapOf(all[..k])
            && events == events0 + ExplicitEvents(all[..k], ruleName, location)
            && err == ForeignOutput(all[k].0, all[k].1)
  {
    ForeignInAttribute(attrs, i, pkgName);
  }

  /**
   * The position, among all explicit outputs, of the first one of attribute
   * `i` that is in another package, when those before attribute `i` are all
   * in the package.
   */
  lemma ForeignInAttribute(attrs: seq<AttrRecord>, i: nat, pkgName: string)
    requires i < |attrs|
    requires InPackage(ExplicitOutputs(attrs[..i]), |ExplicitOutputs(attrs[..i])|, pkgName)
    ensures var done := ExplicitOutputs(attrs[..i]);
            var p := PairsOf(attrs[i].attr.name, OutputLabels(attrs[i]));
            var k := Accepted(p, pkgName);
            var all := ExplicitOutputs(attrs);
            k < |p| ==>
              && Accepted(all, pkgName) == |done| + k < |all|
              && all[..|done| + k] == done + p[..k]
              && all[|done| + k] == p[k]
  {
    var done := ExplicitOutputs(attrs[..i]);
    var p := PairsOf(attrs[i].attr.name, OutputLabels(attrs[i]));
    var k := Accepted(p, pkgName);
    var all := ExplicitOutputs(attrs);
    if k < |p| {
      ExplicitOutputsPrefix(attrs, i + 1);
      assert attrs[..i + 1][..i] == attrs[..i];
      assert ExplicitOutputs(attrs[..i + 1]) == done + p;
      SliceOfPrefix(done, p, all, k);
      InPackageConcat(done, p[..k], pkgName);
      InPackageSlice(all, done + p[..k], pkgName);
      AcceptedAtFirstForeign(all, pkgName, |done| + k);
    }
  }

  lemma SliceOfPrefix<T>(a: seq<T>, b: seq<T>, all: seq<T>, k: nat)
    requires a + b <= all && k <= |b|
    ensures all[..|a| + k] == a + b[..k]
    ensures k < |b| ==> all[|a| + k] == b[k]
  {
    assert all[..|a| + |b|] == a + b;
    assert (a + b)[..|a| + k] == a + b[..k];
  }

  /** A sequence whose first pairs are all in the package has them in the package. */
  lemma InPackageSlice(all: seq<(string, Label)>, prefix: seq<(string, Label)>, pkgName: string)
    requires prefix <= all && InPackage(prefix, |prefix|, pkgName)
    ensures InPackage(all, |prefix|, pkgName)
  {
  }

  /**
   * When the explicit outputs of attribute `i` are all in the package, adding
   * them all after those of the attributes before it adds those of the
   * attributes up to and including it.
   */
  lemma AdvancesPastAttribute(attrs: seq<AttrRecord>, i: nat, pkgName: string, ruleName: string, location: Location,
                              files0: seq<OutputFile>, map0: seq<(string, OutputFile)>, events0: seq<Event>,
                              files: seq<OutputFile>, fileMap: seq<(string, OutputFile)>, events: seq<Event>)
    requires i < |attrs|
    requires InPackage(ExplicitOutputs(attrs[..i]), |ExplicitOutputs(attrs[..i])|, pkgName)
    requires var done := ExplicitOutputs(attrs[..i]);
             var p := PairsOf(attrs[i].attr.name, OutputLabels(attrs[i]));
             var k := Accepted(p, pkgName);
             && k == |p|
             && files == files0 + FilesOf(done + p[..k])
             && fileMap == map0 + FileMapOf(done + p[..k])
             && events == events0 + ExplicitEvents(done + p[..k], ruleName, location)
    ensures var done := ExplicitOutputs(attrs[..i + 1]);
            && InPackage(done, |done|, pkgName)
            && files == files0 + FilesOf(done)
            && fileMap == map0 + FileMapOf(done)
            && events == events0 + ExplicitEvents(done, ruleName, location)
  {
    var done := ExplicitOutputs(attrs[..i]);
    var p := PairsOf(attrs[i].attr.name, OutputLabels(attrs[i]));
    assert p[..|p|] == p;
    InPackageConcat(done, p, pkgName);
    assert attrs[..i + 1][..i] == attrs[..i];
    assert ExplicitOutputs(attrs[..i + 1]) == done + p;
  }

  /** Two sequences of pairs in the package make one. */
  lemma InPackageConcat(a: seq<(string, Label)>, b: seq<(string, Label)>, pkgName: string)
    requires InPackage(a, |a|, pkgName) && InPackage(b, |b|, pkgName)
    ensures InPackage(a + b, |a + b|, pkgName)
  {
    assert forall j :: |a| <= j < |a + b| ==> (a + b)[j] == b[j - |a|];
  }

  /** When every pair is in the package, all are accepted. */
  lemma {:induction false} AcceptedAll(pairs: seq<(string, Label)>, pkgName: string)
    requires InPackage(pairs, |pairs|, pkgName)
    ensures Accepted(pairs, pkgName) == |pairs|
  {
    if pairs != [] {
      assert pairs[0].1.packageName == pkgName;
      AcceptedAll(pairs[1..], pkgName);
    }
  }

  /* ---------------------------------------------------------------------- */
  /* The rule                                                                */
  /* ---------------------------------------------------------------------- */

  class Rule {
    const pkg: Package
    const name: string
    const ruleClass: string
    const location: Location
    const attributes: seq<AttrRecord>

    var visibility: Option<Visibility>
    var containsErrors: bool
    /** None until `populateOutputFiles` runs. */
    var outputFiles: Option<seq<OutputFile>>
    /** The per-attribute output map, as its entries in insertion order. */
    var outputFileMap: seq<(string, OutputFile)>
    /** What has been reported to the error listener. */
    var events: seq<Event>

    constructor (pkg: Package, name: string, ruleClass: string, location: Location, attributes: seq<AttrRecord>)
      requires ValidAttributes(attributes)
      ensures this.pkg == pkg && this.name == name && this.ruleClass == ruleClass
      ensures this.location == location && this.attributes == attributes
      ensures visibility.None? && !containsErrors && outputFiles.None?
      ensures outputFileMap == [] && events == []
      ensures Valid()
    {
      this.pkg := pkg;
      this.name := name;
      this.ruleClass := ruleClass;
      this.location := location;
      this.attributes := attributes;
      visibility := None;
      containsErrors := false;
      outputFiles := None;
      outputFileMap := [];
      events := [];
    }

    ghost predicate Valid() {
      ValidAttributes(attributes)
    }

    /** `setVisibility` (null allowed). */
    method SetVisibility(v: Option<Visibility>)
      modifies this
      ensures visibility == v
      ensures v.Some? ==> GetVisibility() == v.value && IsVisibilitySpecified()
      ensures v.None? ==> !IsVisibilitySpecified()
      ensures containsErrors == old(containsErrors) && outputFiles == old(outputFiles)
      ensures outputFileMap == old(outputFileMap) && events == old(events)
    {
      visibility := v;
    }

    function IsVisibilitySpecified(): bool
      reads this
    {
      visibility.Some?
    }

    /** `getVisibility`: the rule's own visibility, else public for an error rule, else the package default. */
    function GetVisibility(): (v: Visibility)
      reads this
      ensures visibility.Some? ==> v == visibility.value
      ensures visibility.None? && ruleClass == ERROR_RULE ==> v == PublicVisibility
      ensures visibility.None? && ruleClass != ERROR_RULE ==> v == pkg.defaultVisibility
    {
      if visibility.Some? then visibility.value
      else if ruleClass == ERROR_RULE then PublicVisibility
      else pkg.defaultVisibility
    }

    /** `getDistributions`: the explicitly set `distribs` attribute, else the package default. */
    function GetDistributions(): (d: set<string>)
      requires Valid()
      ensures forall r :: r in attributes && r.attr.name == "distribs" && r.attr.attrType == DistributionsType && r.explicit ==>
                d == r.value.distribs
      ensures (forall r :: r in attributes && r.attr.name == "distribs" ==> r.attr.attrType != DistributionsType || !r.explicit) ==>
                d == pkg.defaultDistribs
    {
      ExplicitValueIsTheRecords(attributes, "distribs", DistributionsType);
      match ExplicitValue(attributes, "distribs", DistributionsType)
      case Some(v) => v.distribs
      case None => pkg.defaultDistribs
    }

    /** `getLicense`: the explicitly set `licenses` attribute, else the package default. */
    function GetLicense(): (l: License)
      requires Valid()
      ensures forall r :: r in attributes && r.attr.name == "licenses" && r.attr.attrType == LicenseType && r.explicit ==>
                l == r.value.license
      ensures (forall r :: r in attributes && r.attr.name == "licenses" ==> r.attr.attrType != LicenseType || !r.explicit) ==>
                l == pkg.defaultLicense
    {
      ExplicitValueIsTheRecords(attributes, "licenses", LicenseType);
      match ExplicitValue(attributes, "licenses", LicenseType)
      case Some(v) => v.license
      case None => pkg.defaultLicense
    }

    /** `getToolOutputLicense`: the explicitly set `output_licenses` attribute, else null. */
    function GetToolOutputLicense(): (l: Option<License>)
      requires Valid()
      ensures forall r :: r in attributes && r.attr.name == "output_licenses" && r.attr.attrType == LicenseType && r.explicit ==>
                l == Some(r.value.license)
      ensures l.None? <==>
                forall r :: r in attributes && r.attr.name == "output_licenses" ==> r.attr.attrType != LicenseType || !r.explicit
    {
      ExplicitValueIsTheRecords(attributes, "output_licenses", LicenseType);
      match ExplicitValue(attributes, "output_licenses", LicenseType)
      case Some(v) => Some(v.license)
      case None => None
    }

    /**
     * `getAttributeLocation`: the stored location of the attribute, except
     * for "name"; the rule's location when there is none.
     */
    function GetAttributeLocation(attrName: string): (loc: Location)
      requires Valid()
      ensures attrName == "name" ==> loc == location
      ensures forall r :: r in attributes && r.attr.name == attrName && attrName != "name" && r.location.Some? ==>
                loc == r.location.value
      ensures (forall r :: r in attributes && r.attr.name == attrName ==> r.location.None?) ==> loc == location
    {
      var stored := if attrName == "name" then None else FindAttribute(attributes, attrName);
      assert forall r :: r in attributes && r.attr.name == attrName ==> FindAttribute(attributes, attrName) == Some(r) by {
        forall r | r in attributes && r.attr.name == attrName
          ensures FindAttribute(attributes, attrName) == Some(r)
        {
          var f := FindAttribute(attributes, attrName).value;
          var i :| 0 <= i < |attributes| && attributes[i] == r;
          var j :| 0 <= j < |attributes| && attributes[j] == f;
          assert i == j;
        }
      }
      if stored.Some? && stored.value.location.Some? then stored.value.location.value else location
    }

    /** `getLabels`: the dependency labels of every attribute the predicate admits. */
    method GetLabels(p: DependencyPredicate) returns (labels: set<Label>)
      ensures labels == LabelsMatching(attributes, p)
      ensures forall l :: l in labels <==>
                exists i :: 0 <= i < |attributes| && p(attributes[i]) && l in DependencyLabels(attributes[i])
    {
      labels := {};
      for i := 0 to |attributes|
        invariant labels == LabelsMatching(attributes[..i], p)
      {
        assert attributes[..i + 1][..i] == attributes[..i];
        var attribute := attributes[i];
        var attrLabels := DependencyLabels(attribute);
        if p(attribute) {
          var j := 0;
          while j < |attrLabels|
            invariant 0 <= j <= |attrLabels|
            invariant labels == LabelsMatching(attributes[..i], p) + set l | l in attrLabels[..j]
          {
            assert attrLabels[..j + 1] == attrLabels[..j] + [attrLabels[j]];
            labels := labels + {attrLabels[j]};
            j := j + 1;
          }
          assert attrLabels[..j] == attrLabels;
        }
      }
      assert attributes[..|attributes|] == attributes;
      forall l
        ensures l in labels <==>
                exists i :: 0 <= i < |attributes| && p(attributes[i]) && l in DependencyLabels(attributes[i])
      {
        LabelsMatchingMembers(attributes, p, l);
      }
    }

    /** `getRuleTags`: the tags of the taggable attributes, each once, in first-seen order. */
    method GetRuleTags() returns (ruleTags: seq<string>)
      ensures ruleTags == RuleTags(attributes)
      ensures Distinct(ruleTags)
      ensures forall t :: t in ruleTags <==> exists r :: r in attributes && r.attr.taggable && t in r.tags
    {
      ruleTags := [];
      for i := 0 to |attributes|
        invariant ruleTags == RuleTags(attributes[..i])
      {
        assert attributes[..i + 1][..i] == attributes[..i];
        var attribute := attributes[i];
        if attribute.attr.taggable {
          ruleTags := AddAll(ruleTags, attribute.tags);
        }
      }
      assert attributes[..|attributes|] == attributes;
      RuleTagsAreTheTags(attributes);
    }

    /** `reportError`: an error event, and the rule is marked as containing errors. */
    method ReportError(message: Message)
      modifies this
      ensures events == old(events) + [Error(location, message)] && containsErrors
      ensures visibility == old(visibility) && outputFiles == old(outputFiles)
      ensures outputFileMap == old(outputFileMap)
    {
      events := events + [Error(location, message)];
      containsErrors := true;
    }

    /** `reportWarning`. */
    method ReportWarning(message: Message)
      modifies this
      ensures events == old(events) + [Warning(location, message)]
      ensures containsErrors == old(containsErrors) && visibility == old(visibility)
      ensures outputFiles == old(outputFiles) && outputFileMap == old(outputFileMap)
    {
      events := events + [Warning(location, message)];
    }

    /** `addOutputFile`: appends the file, warning when it is named like the rule. */
    method AddOutputFile(target: Label) returns (outputFile: OutputFile)
      requires outputFiles.Some?
      modifies this
      ensures outputFile == OutputFile(target)
      ensures outputFiles == Some(old(outputFiles).value + [outputFile])
      ensures events == old(events) + FileWarnings(target, name, location)
      ensures containsErrors == old(containsErrors) && visibility == old(visibility)
      ensures outputFileMap == old(outputFileMap)
    {
      if target.name == name {
        ReportWarning(RuleIsAlsoFile(name));
      }
      outputFile := OutputFile(target);
      outputFiles := Some(outputFiles.value + [outputFile]);
    }

    /** `addLabelOutput`: a label of another package is refused; otherwise the file is added and filed under the attribute. */
    method AddLabelOutput(attrName: string, target: Label) returns (r: Result<(), PopulateError>)
      requires outputFiles.Some?
      modifies this
      ensures r.Err? <==> target.packageName != pkg.name
      ensures r.Err? ==> r.error == ForeignOutput(attrName, target)
      ensures r.Err? ==> outputFiles == old(outputFiles) && outputFileMap == old(outputFileMap) && events == old(events)
      ensures r.Ok? ==>
                && outputFiles == Some(old(outputFiles).value + [OutputFile(target)])
                && outputFileMap == old(outputFileMap) + [(attrName, OutputFile(target))]
                && events == old(events) + FileWarnings(target, name, location)
      ensures containsErrors == old(containsErrors) && visibility == old(visibility)
    {
      if target.packageName != pkg.name {
        return Err(ForeignOutput(attrName, target));
      }
      var outputFile := AddOutputFile(target);
      outputFileMap := outputFileMap + [(attrName, outputFile)];
      return Ok(());
    }

    /**
     * `populateImplicitOutputFiles`: a failure of the implicit-outputs
     * function is reported; otherwise each generated name that parses becomes
     * a file and each that does not is reported and skipped.
     */
    method PopulateImplicitOutputFiles(implicitOutputs: Result<seq<string>, string>, parse: string -> Option<Label>)
      requires outputFiles.Some?
      modifies this
      ensures implicitOutputs.Err? ==>
                && outputFiles == old(outputFiles)
                && events == old(events) + [Error(location, EvalFailure(implicitOutputs.error))]
                && containsErrors
      ensures implicitOutputs.Ok? ==>
                && outputFiles == Some(old(outputFiles).value + ImplicitFiles(implicitOutputs.value, parse))
                && events == old(events) + ImplicitEvents(implicitOutputs.value, parse, name, location)
                && containsErrors == (old(containsErrors) ||
                                      exists o :: o in implicitOutputs.value && parse(o).None?)
      ensures outputFileMap == old(outputFileMap) && visibility == old(visibility)
    {
      if implicitOutputs.Err? {
        ReportError(EvalFailure(implicitOutputs.error));
        return;
      }
      var outs := implicitOutputs.value;
      ghost var files0, events0 := outputFiles.value, events;
      assert outs[..0] == [];
      assert files0 + [] == files0 && events0 + [] == events0;
      for i := 0 to |outs|
        invariant outputFiles == Some(files0 + ImplicitFiles(outs[..i], parse))
        invariant events == events0 + ImplicitEvents(outs[..i], parse, name, location)
        invariant containsErrors == (old(containsErrors) || exists o :: o in outs[..i] && parse(o).None?)
        invariant outputFileMap == old(outputFileMap) && visibility == old(visibility)
      {
        ImplicitStep(files0, events0, outs, i, parse, name, location);
        var target := parse(outs[i]);
        if target.Some? {
          var _ := AddOutputFile(target.value);
        } else {
          ReportError(IllegalOutputFileName(outs[i]));
        }
      }
      assert outs[..|outs|] == outs;
    }

    /**
     * The inner loop of `populateExplicitOutputFiles`: `addLabelOutput` for
     * each label of one output attribute, up to the first label of another
     * package.
     */
    method AddLabelOutputs(attrName: string, labels: seq<Label>) returns (r: Result<(), PopulateError>)
      requires outputFiles.Some?
      modifies this
      ensures var pairs := PairsOf(attrName, labels);
              var k := Accepted(pairs, pkg.name);
              && outputFiles == Some(old(outputFiles).value + FilesOf(pairs[..k]))
              && outputFileMap == old(outputFileMap) + FileMapOf(pairs[..k])
              && events == old(events) + ExplicitEvents(pairs[..k], name, location)
              && (r.Ok? <==> k == |pairs|)
              && (r.Err? ==> r.error == ForeignOutput(pairs[k].0, pairs[k].1))
      ensures containsErrors == old(containsErrors) && visibility == old(visibility)
    {
      ghost var pairs := PairsOf(attrName, labels);
      ghost var files0, map0, events0 := outputFiles.value, outputFileMap, events;
      assert pairs[..0] == [];
      assert files0 + [] == files0 && map0 + [] == map0 && events0 + [] == events0;
      for j := 0 to |labels|
        invariant InPackage(pairs, j, pkg.name)
        invariant outputFiles == Some(files0 + FilesOf(pairs[..j]))
        invariant outputFileMap == map0 + FileMapOf(pairs[..j])
        invariant events == events0 + ExplicitEvents(pairs[..j], name, location)
        invariant containsErrors == old(containsErrors) && visibility == old(visibility)
      {
        ExplicitStep(files0, map0, events0, pairs, j, name, location);
        var added := AddLabelOutput(attrName, labels[j]);
        if added.Err? {
          AcceptedAtFirstForeign(pairs, pkg.name, j);
          return added;
        }
      }
      AcceptedAll(pairs, pkg.name);
      assert pairs[..|labels|] == pairs;
      r := Ok(());
    }

    /**
     * `populateExplicitOutputFiles`: the labels of the output attributes in
     * declaration order; the first label of another package ends it with an
     * exception, the files added before it staying in place.
     */
    method PopulateExplicitOutputFiles() returns (r: Result<(), PopulateError>)
      requires outputFiles.Some?
      modifies this
      ensures var pairs := ExplicitOutputs(attributes);
              var k := Accepted(pairs, pkg.name);
              && outputFiles == Some(old(outputFiles).value + FilesOf(pairs[..k]))
              && outputFileMap == old(outputFileMap) + FileMapOf(pairs[..k])
              && events == old(events) + ExplicitEvents(pairs[..k], name, location)
              && (r.Ok? <==> k == |pairs|)
              && (r.Err? ==> r.error == ForeignOutput(pairs[k].0, pairs[k].1))
      ensures containsErrors == old(containsErrors) && visibility == old(visibility)
    {
      ghost var files0, map0, events0 := outputFiles.value, outputFileMap, events;
      assert attributes[..0] == [];
      assert files0 + [] == files0 && map0 + [] == map0 && events0 + [] == events0;
      for i := 0 to |attributes|
        invariant InPackage(ExplicitOutputs(attributes[..i]), |ExplicitOutputs(attributes[..i])|, pkg.name)
        invariant outputFiles == Some(files0 + FilesOf(ExplicitOutputs(attributes[..i])))
        invariant outputFileMap == map0 + FileMapOf(ExplicitOutputs(attributes[..i]))
        invariant events == events0 + ExplicitEvents(ExplicitOutputs(attributes[..i]), name, location)
        invariant containsErrors == old(containsErrors) && visibility == old(visibility)
      {
        r := AddAttributeOutputs(files0, map0, events0, i);
        if r.Err? {
          return;
        }
      }
      ghost var all := ExplicitOutputs(attributes);
      assert attributes[..|attributes|] == attributes;
      AcceptedAll(all, pkg.name);
      assert all[..|all|] == all;
      r := Ok(());
    }

    /**
     * The turn of attribute `i` in `populateExplicitOutputFiles`, after the
     * explicit outputs of the attributes before it were all added.
     */
    method AddAttributeOutputs(ghost files0: seq<OutputFile>, ghost map0: seq<(string, OutputFile)>, ghost events0: seq<Event>,
                               i: nat)
      returns (r: Result<(), PopulateError>)
      requires i < |attributes|
      requires InPackage(ExplicitOutputs(attributes[..i]), |ExplicitOutputs(attributes[..i])|, pkg.name)
      requires outputFiles == Some(files0 + FilesOf(ExplicitOutputs(attributes[..i])))
      requires outputFileMap == map0 + FileMapOf(ExplicitOutputs(attributes[..i]))
      requires events == events0 + ExplicitEvents(ExplicitOutputs(attributes[..i]), name, location)
      modifies this
      ensures r.Ok? ==>
                var done := ExplicitOutputs(attributes[..i + 1]);
                && InPackage(done, |done|, pkg.name)
                && outputFiles == Some(files0 + FilesOf(done))
                && outputFileMap == map0 + FileMapOf(done)
                && events == events0 + ExplicitEvents(done, name, location)
      ensures r.Err? ==>
                var all := ExplicitOutputs(attributes);
                var k := Accepted(all, pkg.name);
                && k < |all|
                && outputFiles == Some(files0 + FilesOf(all[..k]))
                && outputFileMap == map0 + FileMapOf(all[..k])
                && events == events0 + ExplicitEvents(all[..k], name, location)
                && r.error == ForeignOutput(all[k].0, all[k].1)
      ensures containsErrors == old(containsErrors) && visibility == old(visibility)
    {
      ghost var done := ExplicitOutputs(attributes[..i]);
      ghost var pairs := PairsOf(attributes[i].attr.name, OutputLabels(attributes[i]));
      ghost var k := Accepted(pairs, pkg.name);
      r := AddLabelOutputs(attributes[i].attr.name, OutputLabels(attributes[i]));
      ExtendOutputs(files0, map0, events0, done, pairs, k, name, location);
      if r.Err? {
        StopsAtForeign(attributes, i, pkg.name, name, location, files0, map0, events0,
                       outputFiles.value, outputFileMap, events, r.error);
      } else {
        AdvancesPastAttribute(attributes, i, pkg.name, name, location, files0, map0, events0,
                              outputFiles.value, outputFileMap, events);
      }
    }

    /**
     * `populateOutputFiles`: only once; the implicit outputs first, then the
     * explicit ones.
     */
    method PopulateOutputFiles(implicitOutputs: Result<seq<string>, string>, parse: string -> Option<Label>)
      returns (r: Result<(), PopulateError>)
      modifies this
      ensures old(outputFiles).Some? ==>
                r == Err(AlreadyPopulated) && outputFiles == old(outputFiles) &&
                outputFileMap == old(outputFileMap) && events == old(events) &&
                containsErrors == old(containsErrors)
      ensures old(outputFiles).None? ==>
                var implicitFiles := if implicitOutputs.Ok? then ImplicitFiles(implicitOutputs.value, parse) else [];
                var implicitEvents := if implicitOutputs.Ok? then ImplicitEvents(implicitOutputs.value, parse, name, location)
                                      else [Error(location, EvalFailure(implicitOutputs.error))];
                var pairs := ExplicitOutputs(attributes);
                var k := Accepted(pairs, pkg.name);
                && outputFiles == Some(implicitFiles + FilesOf(pairs[..k]))
                && outputFileMap == FileMapOf(pairs[..k])
                && events == old(events) + implicitEvents + ExplicitEvents(pairs[..k], name, location)
                && (r.Ok? <==> k == |pairs|)
                && (r.Err? ==> r.error == ForeignOutput(pairs[k].0, pairs[k].1))
      ensures old(outputFiles).None? ==>
                containsErrors == (|| old(containsErrors)
                                   || implicitOutputs.Err?
                                   || exists o :: o in implicitOutputs.value && parse(o).None?)
      ensures visibility == old(visibility)
    {
      if outputFiles.Some? {
        return Err(AlreadyPopulated);
      }
      outputFiles := Some([]);
      outputFileMap := [];
      PopulateImplicitOutputFiles(implicitOutputs, parse);
      assert [] + (if implicitOutputs.Ok? then ImplicitFiles(implicitOutputs.value, parse) else [])
             == if implicitOutputs.Ok? then ImplicitFiles(implicitOutputs.value, parse) else [];
      assert outputFileMap == [];
      r := PopulateExplicitOutputFiles();
    }
  }

  /* ---------------------------------------------------------------------- */
  /* Tags                                                                    */
  /* ---------------------------------------------------------------------- */

  /** `addAll` on an insertion-ordered set: the tags not yet present, appended in order. */
  function AddAll(ruleTags: seq<string>, tags: seq<string>): seq<string> {
    if tags == [] then ruleTags
    else
      var r := AddAll(ruleTags, tags[..|tags| - 1]);
      var t := tags[|tags| - 1];
      if t in r then r else r + [t]
  }

  /** The tag set of the taggable attributes. */
  function RuleTags(attrs: seq<AttrRecord>): seq<string> {
    if attrs == [] then []
    else
      var r := RuleTags(attrs[..|attrs| - 1]);
      var last := attrs[|attrs| - 1];
      if last.attr.taggable then AddAll(r, last.tags) else r
  }

  /** Adding tags keeps them distinct and adds exactly the new ones. */
  lemma {:induction false} AddAllUnion(ruleTags: seq<string>, tags: seq<string>)
    requires Distinct(ruleTags)
    ensures Distinct(AddAll(ruleTags, tags))
    ensures forall t :: t in AddAll(ruleTags, tags) <==> t in ruleTags || t in tags
    ensures ruleTags <= AddAll(ruleTags, tags)
  {
    if tags != [] {
      AddAllUnion(ruleTags, tags[..|tags| - 1]);
      assert tags == tags[..|tags| - 1] + [tags[|tags| - 1]];
    }
  }

  /** The rule's tags, each once, are those of its taggable attributes. */
  lemma {:induction false} RuleTagsAreTheTags(attrs: seq<AttrRecord>)
    ensures Distinct(RuleTags(attrs))
    ensures forall t :: t in RuleTags(attrs) <==> exists r :: r in attrs && r.attr.taggable && t in r.tags
  {
    if attrs != [] {
      var init := attrs[..|attrs| - 1];
      var last := attrs[|attrs| - 1];
      RuleTagsAreTheTags(init);
      assert attrs == init + [last];
      if last.attr.taggable {
        AddAllUnion(RuleTags(init), last.tags);
      }
      forall t | t in RuleTags(attrs)
        ensures exists r :: r in attrs && r.attr.taggable && t in r.tags
      {
        if t in RuleTags(init) {
          var r :| r in init && r.attr.taggable && t in r.tags;
          assert r in attrs;
        }
      }
    }
  }
}
