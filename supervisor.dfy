/**
 * The command-line front end: services in priority order, start / stop /
 * restart / status over them, and the setup check that gates `start`.
 */
module Supervisor {
  import opened Common
  import opened Text
  import opened Host
  import opened Service
  import opened Template

  // ---------------------------------------------------------------------
  // Priority order
  // ---------------------------------------------------------------------

  /** An item with the priority it is sorted by (`None`, Python 2's `None`, sorts first). */
  datatype Keyed<T> = Keyed(key: Option<int>, item: T)

  /** Python 2's `<=` on `None` and integers. */
  predicate KeyLe(a: Option<int>, b: Option<int>) {
    a.None? || (b.Some? && a.value <= b.value)
  }

  predicate Sorted<T>(s: seq<Keyed<T>>) {
    forall i, j :: 0 <= i < j < |s| ==> KeyLe(s[i].key, s[j].key)
  }

  /** Insert behind every element whose key is not greater: equal keys keep their arrival order. */
  function Insert<T>(x: Keyed<T>, s: seq<Keyed<T>>): (r: seq<Keyed<T>>)
    ensures |r| == |s| + 1
    decreases |s|
  {
    if s == [] || KeyLe(s[|s| - 1].key, x.key) then s + [x]
    else Insert(x, s[..|s| - 1]) + [s[|s| - 1]]
  }

  /** `sorted(..., key=lambda x: x.priority)`: a stable sort, here insertion of each element in turn. */
  function SortByKey<T>(xs: seq<Keyed<T>>): (r: seq<Keyed<T>>)
    ensures |r| == |xs|
    decreases |xs|
  {
    if xs == [] then [] else Insert(xs[|xs| - 1], SortByKey(xs[..|xs| - 1]))
  }

  /** The elements with key `k`, in order. */
  function WithKey<T>(s: seq<Keyed<T>>, k: Option<int>): seq<Keyed<T>>
    decreases |s|
  {
    if s == [] then []
    else WithKey(s[..|s| - 1], k) + (if s[|s| - 1].key == k then [s[|s| - 1]] else [])
  }

  lemma {:induction false} WithKeyConcat<T>(a: seq<Keyed<T>>, b: seq<Keyed<T>>, k: Option<int>)
    ensures WithKey(a + b, k) == WithKey(a, k) + WithKey(b, k)
    decreases |b|
  {
    if b == [] {
      assert a + b == a;
    } else {
      assert (a + b)[..|a + b| - 1] == a + b[..|b| - 1];
      WithKeyConcat(a, b[..|b| - 1], k);
    }
  }

  lemma {:induction false} InsertElements<T>(x: Keyed<T>, s: seq<Keyed<T>>)
    ensures multiset(Insert(x, s)) == multiset(s) + multiset{x}
    decreases |s|
  {
    if !(s == [] || KeyLe(s[|s| - 1].key, x.key)) {
      InsertElements(x, s[..|s| - 1]);
      assert s == s[..|s| - 1] + [s[|s| - 1]];
    }
  }

  lemma {:induction false} InsertSorted<T>(x: Keyed<T>, s: seq<Keyed<T>>)
    requires Sorted(s)
    ensures Sorted(Insert(x, s))
    ensures forall i :: 0 <= i < |Insert(x, s)| ==> Insert(x, s)[i] == x || Insert(x, s)[i] in s
    decreases |s|
  {
    if !(s == [] || KeyLe(s[|s| - 1].key, x.key)) {
      var init, last := s[..|s| - 1], s[|s| - 1];
      assert Sorted(init);
      InsertSorted(x, init);
      var r := Insert(x, init);
      forall i | 0 <= i < |r| ensures KeyLe(r[i].key, last.key) {
        if r[i] != x {
          var j :| 0 <= j < |init| && init[j] == r[i];
        }
      }
    }
  }

  lemma WithKeyOne<T>(x: Keyed<T>, k: Option<int>)
    ensures WithKey([x], k) == if x.key == k then [x] else []
  {
    assert [x][..0] == [];
  }

  /** Insertion puts `x` behind the elements of its key already there. */
  lemma {:induction false} InsertWithKey<T>(x: Keyed<T>, s: seq<Keyed<T>>, k: Option<int>)
    ensures WithKey(Insert(x, s), k) == WithKey(s, k) + (if x.key == k then [x] else [])
    decreases |s|
  {
    if s == [] || KeyLe(s[|s| - 1].key, x.key) {
      WithKeyConcat(s, [x], k);
      WithKeyOne(x, k);
    } else {
      var init, last := s[..|s| - 1], s[|s| - 1];
      InsertWithKey(x, init, k);
      var r := Insert(x, init);
      assert Insert(x, s) == r + [last];
      WithKeyConcat(r, [last], k);
      assert s == init + [last];
      WithKeyConcat(init, [last], k);
      WithKeyOne(last, k);
      if x.key == k {
        // `last` sorts strictly after `x`, so it has another key
        assert last.key != k;
        assert WithKey([last], k) == [];
      } else {
        assert WithKey(Insert(x, s), k) == WithKey(init, k) + WithKey([last], k);
      }
    }
  }

  /** The sort orders by priority and keeps every element. */
  lemma {:induction false} SortSortedPermutation<T>(xs: seq<Keyed<T>>)
    ensures Sorted(SortByKey(xs))
    ensures multiset(SortByKey(xs)) == multiset(xs)
    decreases |xs|
  {
    if xs != [] {
      var init := xs[..|xs| - 1];
      SortSortedPermutation(init);
      InsertSorted(xs[|xs| - 1], SortByKey(init));
      InsertElements(xs[|xs| - 1], SortByKey(init));
      assert xs == init + [xs[|xs| - 1]];
    }
  }

  /** The sort is stable: services of equal priority stay in their input order. */
  lemma {:induction false} SortStable<T>(xs: seq<Keyed<T>>, k: Option<int>)
    ensures WithKey(SortByKey(xs), k) == WithKey(xs, k)
    decreases |xs|
  {
    if xs != [] {
      var init := xs[..|xs| - 1];
      SortStable(init, k);
      SortSortedPermutation(init);
      InsertWithKey(xs[|xs| - 1], SortByKey(init), k);
    }
  }

  // ---------------------------------------------------------------------
  // services_by_name
  // ---------------------------------------------------------------------

  /** An `OrderedDict` built from pairs: names in order of first appearance. */
  function FirstNames<V>(pairs: seq<(string, V)>): (names: seq<string>)
    decreases |pairs|
  {
    if pairs == [] then []
    else
      var names := FirstNames(pairs[..|pairs| - 1]);
      if pairs[|pairs| - 1].0 in names then names else names + [pairs[|pairs| - 1].0]
  }

  /** ... and each name's value is the one paired with it last. */
  function LastValues<V>(pairs: seq<(string, V)>): map<string, V>
    decreases |pairs|
  {
    if pairs == [] then map[]
    else LastValues(pairs[..|pairs| - 1])[pairs[|pairs| - 1].0 := pairs[|pairs| - 1].1]
  }

  predicate Distinct<U(==)>(s: seq<U>) {
    forall i, j :: 0 <= i < j < |s| ==> s[i] != s[j]
  }

  /** The ordered map lists each name once, exactly the names of the pairs, which are its keys. */
  lemma {:induction false} OrderedDictNames<V>(pairs: seq<(string, V)>)
    ensures Distinct(FirstNames(pairs))
    ensures forall n :: n in FirstNames(pairs) <==> exists i :: 0 <= i < |pairs| && pairs[i].0 == n
    ensures LastValues(pairs).Keys == set n | n in FirstNames(pairs)
    decreases |pairs|
  {
    if pairs != [] {
      var init := pairs[..|pairs| - 1];
      OrderedDictNames(init);
      forall n ensures n in FirstNames(pairs) <==> exists i :: 0 <= i < |pairs| && pairs[i].0 == n {
        if n in FirstNames(init) {
          var i :| 0 <= i < |init| && init[i].0 == n;
          assert pairs[i] == init[i];
        }
        if i :| 0 <= i < |pairs| && pairs[i].0 == n {
          if i < |init| { assert init[i] == pairs[i]; }
        }
      }
    }
  }

  /** A name's value is that of its last pair. */
  lemma {:induction false} LastValueWins<V>(pairs: seq<(string, V)>, i: nat)
    requires i < |pairs| && forall j :: i < j < |pairs| ==> pairs[j].0 != pairs[i].0
    ensures pairs[i].0 in LastValues(pairs) && LastValues(pairs)[pairs[i].0] == pairs[i].1
    decreases |pairs|
  {
    if i < |pairs| - 1 {
      var init := pairs[..|pairs| - 1];
      assert init[i] == pairs[i];
      LastValueWins(init, i);
    }
  }

  /** With distinct names the ordered map keeps the pairs' order. */
  lemma {:induction false} DistinctNamesKept<V>(pairs: seq<(string, V)>)
    requires forall i, j :: 0 <= i < j < |pairs| ==> pairs[i].0 != pairs[j].0
    ensures |FirstNames(pairs)| == |pairs|
    ensures forall i :: 0 <= i < |pairs| ==> FirstNames(pairs)[i] == pairs[i].0
    decreases |pairs|
  {
    if pairs != [] {
      var init := pairs[..|pairs| - 1];
      DistinctNamesKept(init);
      assert pairs[|pairs| - 1].0 !in FirstNames(init);
    }
  }

  /** Every name of the pairs `s` holds differs from every other. */
  predicate DistinctNames<V>(s: seq<Keyed<(string, V)>>) {
    forall i, j :: 0 <= i < j < |s| ==> s[i].item.0 != s[j].item.0
  }

  lemma {:induction false} InsertDistinct<V>(x: Keyed<(string, V)>, s: seq<Keyed<(string, V)>>)
    requires DistinctNames(s) && forall i :: 0 <= i < |s| ==> s[i].item.0 != x.item.0
    ensures DistinctNames(Insert(x, s))
    decreases |s|
  {
    if !(s == [] || KeyLe(s[|s| - 1].key, x.key)) {
      var init, last := s[..|s| - 1], s[|s| - 1];
      InsertDistinct(x, init);
      InsertElements(x, init);
      var r := Insert(x, init);
      forall i | 0 <= i < |r| ensures r[i].item.0 != last.item.0 {
        assert r[i] in multiset(init) + multiset{x};
        if r[i] != x {
          var k :| 0 <= k < |init| && init[k] == r[i];
        }
      }
    }
  }

  /** Sorting keeps distinct names distinct. */
  lemma {:induction false} SortDistinct<V>(xs: seq<Keyed<(string, V)>>)
    requires DistinctNames(xs)
    ensures DistinctNames(SortByKey(xs))
    decreases |xs|
  {
    if xs != [] {
      var init, last := xs[..|xs| - 1], xs[|xs| - 1];
      SortDistinct(init);
      SortSortedPermutation(init);
      var sorted := SortByKey(init);
      forall i | 0 <= i < |sorted| ensures sorted[i].item.0 != last.item.0 {
        assert sorted[i] in multiset(init);
        var k :| 0 <= k < |init| && init[k] == sorted[i];
        assert xs[k] == init[k];
      }
      InsertDistinct(last, sorted);
    }
  }

  /** The `(service.name, service)` pairs of a sorted sequence. */
  function Items<V>(s: seq<Keyed<(string, V)>>): (r: seq<(string, V)>)
    ensures |r| == |s| && forall i :: 0 <= i < |s| ==> r[i] == s[i].item
  {
    seq(|s|, i requires 0 <= i < |s| => s[i].item)
  }

  /**
   * With distinct service names, `services_by_name` lists the services in
   * sorted order: the `i`-th name is that of the `i`-th sorted service, and
   * maps to it.
   */
  lemma OrderedByPriority<V>(xs: seq<Keyed<(string, V)>>)
    requires DistinctNames(xs)
    ensures var sorted := SortByKey(xs);
      && |FirstNames(Items(sorted))| == |xs|
      && forall i :: 0 <= i < |xs| ==>
           && FirstNames(Items(sorted))[i] == sorted[i].item.0
           && FirstNames(Items(sorted))[i] in LastValues(Items(sorted))
           && LastValues(Items(sorted))[FirstNames(Items(sorted))[i]] == sorted[i].item.1
  {
    var sorted := SortByKey(xs);
    SortDistinct(xs);
    SortSortedPermutation(xs);
    var pairs := Items(sorted);
    DistinctNamesKept(pairs);
    forall i | 0 <= i < |xs|
      ensures pairs[i].0 in LastValues(pairs) && LastValues(pairs)[pairs[i].0] == pairs[i].1
    {
      LastValueWins(pairs, i);
    }
  }

  // ---------------------------------------------------------------------
  // Setup steps
  // ---------------------------------------------------------------------

  /** The `OrderedDict` of setup steps: titles in insertion order, and the lines under each. */
  datatype Steps = Steps(titles: seq<string>, lines: map<string, seq<string>>)

  predicate WellFormed(s: Steps) {
    Distinct(s.titles) && s.lines.Keys == set t | t in s.titles
  }

  const NoSteps := Steps([], map[])

  /** `setup_steps[title] = v`: a new title goes last, an existing one keeps its place. */
  function Put(s: Steps, t: string, v: seq<string>): (r: Steps)
    ensures WellFormed(s) ==> WellFormed(r) && r.lines == s.lines[t := v]
    ensures WellFormed(s) && t in s.titles ==> r.titles == s.titles
    ensures t !in s.titles ==> r.titles == s.titles + [t]
  {
    if t in s.titles then Steps(s.titles, s.lines[t := v]) else Steps(s.titles + [t], s.lines[t := v])
  }

  /** `setup_steps.setdefault(title, [])` followed by `.append(line)`. */
  function AddLine(s: Steps, t: string, line: string): (r: Steps)
    ensures WellFormed(s) ==> WellFormed(r)
    ensures WellFormed(s) ==> r.lines == s.lines[t := (if t in s.lines then s.lines[t] else []) + [line]]
    ensures WellFormed(s) && t in s.titles ==> r.titles == s.titles
    ensures t !in s.titles ==> r.titles == s.titles + [t]
  {
    Put(s, t, (if t in s.lines then s.lines[t] else []) + [line])
  }

  /** The operating-system requirements, each title with its steps. */
  function AddRequirements(s: Steps, reqs: seq<(string, seq<string>)>): Steps
    decreases |reqs|
  {
    if reqs == [] then s
    else Put(AddRequirements(s, reqs[..|reqs| - 1]), reqs[|reqs| - 1].0, reqs[|reqs| - 1].1)
  }

  const EnableTitle := "Enable services before starting them:"

  function EnableStep(progname: string): string {
    "Enable the desired services with '" + progname + " enable <servicename>'."
  }

  /** What `_get_setup_steps` needs of a service: whether it is enabled, and its validation functions. */
  datatype Check = Check(enabled: bool, validations: seq<Validation>)

  predicate AnyEnabled(checks: seq<Check>) {
    exists i :: 0 <= i < |checks| && checks[i].enabled
  }

  /** Every non-empty message of a validation function becomes a title with no lines. */
  function AddValidations(s: Steps, fs: seq<Validation>, values: map<string, string>): Steps
    decreases |fs|
  {
    if fs == [] then s
    else
      var d := AddValidations(s, fs[..|fs| - 1], values);
      var title := fs[|fs| - 1](values);
      if title == "" then d else Put(d, title, [])
  }

  /** The validations of the enabled services, in order. */
  function AddChecks(s: Steps, checks: seq<Check>, values: map<string, string>): Steps
    decreases |checks|
  {
    if checks == [] then s
    else
      var d := AddChecks(s, checks[..|checks| - 1], values);
      var c := checks[|checks| - 1];
      if c.enabled then AddValidations(d, c.validations, values) else d
  }

  /** A configured value that differs from the suggested one, with the reason for the suggestion. */
  datatype Suggestion = Suggestion(name: string, value: string, why: string)

  /** The suggested value as it must be typed: a leading dash needs a space inside the quotes. */
  function Quoted(v: string): string {
    if |v| > 0 && v[0] == '-' then "\" " + v + " \"" else "\"" + v + "\""
  }

  function Hint(progname: string, sg: Suggestion, current: string): string {
    "\n" + progname + " set " + sg.name + " " + Quoted(sg.value) + "\n    (current value: " + current + ")"
  }

  /** One hint per suggestion under its reason; the current value must exist (`KeyError` otherwise). */
  function AddSuggestions(s: Steps, sgs: seq<Suggestion>, progname: string, values: map<string, string>): Result<Steps, Fault>
    decreases |sgs|
  {
    if sgs == [] then Ok(s)
    else
      var d :- AddSuggestions(s, sgs[..|sgs| - 1], progname, values);
      var sg := sgs[|sgs| - 1];
      if sg.name !in values then Err(KeyError(sg.name))
      else Ok(AddLine(d, sg.why, Hint(progname, sg, values[sg.name])))
  }

  /** `_get_setup_steps(services)`. */
  function SetupSteps(progname: string, reqs: seq<(string, seq<string>)>, checks: seq<Check>,
                      values: map<string, string>, sgs: seq<Suggestion>): Result<Steps, Fault>
  {
    var s0 := AddRequirements(NoSteps, reqs);
    var s1 := if AnyEnabled(checks) then s0 else Put(s0, EnableTitle, [EnableStep(progname)]);
    AddSuggestions(AddChecks(s1, checks, values), sgs, progname, values)
  }

  predicate Requirement(reqs: seq<(string, seq<string>)>, t: string) {
    exists i :: 0 <= i < |reqs| && reqs[i].0 == t
  }

  /** `t` is the message of one of the validation functions `fs`. */
  predicate Flags(fs: seq<Validation>, values: map<string, string>, t: string) {
    t != "" && exists j :: 0 <= j < |fs| && fs[j](values) == t
  }

  /** `t` is the message of a validation function of an enabled service. */
  predicate Complains(checks: seq<Check>, values: map<string, string>, t: string) {
    exists i :: 0 <= i < |checks| && checks[i].enabled && Flags(checks[i].validations, values, t)
  }

  predicate Reason(sgs: seq<Suggestion>, t: string) {
    exists i :: 0 <= i < |sgs| && sgs[i].why == t
  }

  predicate Missing(sgs: seq<Suggestion>, values: map<string, string>) {
    exists i :: 0 <= i < |sgs| && sgs[i].name !in values
  }

  /** `s` is kept, in front, by a later stage `r`. */
  predicate Extends(r: Steps, s: Steps) {
    WellFormed(r) && |s.titles| <= |r.titles| && r.titles[..|s.titles|] == s.titles
  }

  lemma PutExtends(s: Steps, t: string, v: seq<string>)
    requires WellFormed(s)
    ensures Extends(Put(s, t, v), s) && t in Put(s, t, v).lines
    ensures forall u :: u in Put(s, t, v).lines <==> u in s.lines || u == t
  {
    assert (s.titles + [t])[..|s.titles|] == s.titles;
  }

  lemma ExtendsTransitive(a: Steps, b: Steps, c: Steps)
    requires Extends(b, a) && Extends(c, b)
    ensures Extends(c, a)
  {
    assert c.titles[..|a.titles|] == c.titles[..|b.titles|][..|a.titles|];
  }

  lemma RequirementSnoc(reqs: seq<(string, seq<string>)>, t: string)
    requires reqs != []
    ensures Requirement(reqs, t) <==> Requirement(reqs[..|reqs| - 1], t) || t == reqs[|reqs| - 1].0
  {
    var init := reqs[..|reqs| - 1];
    if Requirement(reqs, t) {
      var i :| 0 <= i < |reqs| && reqs[i].0 == t;
      if i < |init| { assert init[i] == reqs[i]; }
    }
    if Requirement(init, t) {
      var i :| 0 <= i < |init| && init[i].0 == t;
      assert reqs[i] == init[i];
    }
  }

  lemma {:induction false} AddRequirementsTitles(s: Steps, reqs: seq<(string, seq<string>)>)
    requires WellFormed(s)
    ensures Extends(AddRequirements(s, reqs), s)
    ensures forall t :: t in AddRequirements(s, reqs).lines <==> t in s.lines || Requirement(reqs, t)
    decreases |reqs|
  {
    if reqs != [] {
      var init, last := reqs[..|reqs| - 1], reqs[|reqs| - 1];
      AddRequirementsTitles(s, init);
      var d := AddRequirements(s, init);
      PutExtends(d, last.0, last.1);
      ExtendsTransitive(s, d, AddRequirements(s, reqs));
      forall t ensures t in AddRequirements(s, reqs).lines <==> t in s.lines || Requirement(reqs, t) {
        RequirementSnoc(reqs, t);
      }
    }
  }

  lemma {:induction false} AddValidationsTitles(s: Steps, fs: seq<Validation>, values: map<string, string>)
    requires WellFormed(s)
    ensures Extends(AddValidations(s, fs, values), s)
    ensures forall t :: t in AddValidations(s, fs, values).lines <==> t in s.lines || Flags(fs, values, t)
    decreases |fs|
  {
    if fs != [] {
      var init := fs[..|fs| - 1];
      AddValidationsTitles(s, init, values);
      var d := AddValidations(s, init, values);
      var title := fs[|fs| - 1](values);
      if title != "" {
        PutExtends(d, title, []);
        ExtendsTransitive(s, d, AddValidations(s, fs, values));
      }
      forall t ensures Flags(fs, values, t) <==> Flags(init, values, t) || (t != "" && t == title) {
        if Flags(fs, values, t) {
          var j :| 0 <= j < |fs| && fs[j](values) == t;
          if j < |init| { assert init[j] == fs[j]; }
        }
        if Flags(init, values, t) {
          var j :| 0 <= j < |init| && init[j](values) == t;
          assert fs[j] == init[j];
        }
      }
    }
  }

  lemma {:induction false} AddChecksTitles(s: Steps, checks: seq<Check>, values: map<string, string>)
    requires WellFormed(s)
    ensures Extends(AddChecks(s, checks, values), s)
    ensures forall t :: t in AddChecks(s, checks, values).lines <==> t in s.lines || Complains(checks, values, t)
    decreases |checks|
  {
    if checks != [] {
      var init, c := checks[..|checks| - 1], checks[|checks| - 1];
      AddChecksTitles(s, init, values);
      var d := AddChecks(s, init, values);
      if c.enabled {
        AddValidationsTitles(d, c.validations, values);
        ExtendsTransitive(s, d, AddChecks(s, checks, values));
      }
      forall t ensures Complains(checks, values, t) <==> Complains(init, values, t) || (c.enabled && Flags(c.validations, values, t)) {
        if Complains(checks, values, t) {
          var i :| 0 <= i < |checks| && checks[i].enabled && Flags(checks[i].validations, values, t);
          if i < |init| { assert init[i] == checks[i]; }
        }
        if Complains(init, values, t) {
          var i :| 0 <= i < |init| && init[i].enabled && Flags(init[i].validations, values, t);
          assert checks[i] == init[i];
        }
      }
    }
  }

  lemma MissingSnoc(sgs: seq<Suggestion>, values: map<string, string>)
    requires sgs != []
    ensures Missing(sgs, values) <==> Missing(sgs[..|sgs| - 1], values) || sgs[|sgs| - 1].name !in values
  {
    var init := sgs[..|sgs| - 1];
    if Missing(sgs, values) {
      var i :| 0 <= i < |sgs| && sgs[i].name !in values;
      if i < |init| { assert init[i] == sgs[i]; }
    }
    if Missing(init, values) {
      var i :| 0 <= i < |init| && init[i].name !in values;
      assert sgs[i] == init[i];
    }
  }

  lemma ReasonSnoc(sgs: seq<Suggestion>, t: string)
    requires sgs != []
    ensures Reason(sgs, t) <==> Reason(sgs[..|sgs| - 1], t) || t == sgs[|sgs| - 1].why
  {
    var init := sgs[..|sgs| - 1];
    if Reason(sgs, t) {
      var i :| 0 <= i < |sgs| && sgs[i].why == t;
      if i < |init| { assert init[i] == sgs[i]; }
    }
    if Reason(init, t) {
      var i :| 0 <= i < |init| && init[i].why == t;
      assert sgs[i] == init[i];
    }
  }

  lemma {:induction false} AddSuggestionsTitles(s: Steps, sgs: seq<Suggestion>, progname: string, values: map<string, string>)
    requires WellFormed(s)
    ensures AddSuggestions(s, sgs, progname, values).Err? <==> Missing(sgs, values)
    ensures AddSuggestions(s, sgs, progname, values).Err? ==>
      var e := AddSuggestions(s, sgs, progname, values).error; e.KeyError? && e.key !in values
    ensures AddSuggestions(s, sgs, progname, values).Ok? ==>
      var r := AddSuggestions(s, sgs, progname, values).value;
      Extends(r, s) && forall t :: t in r.lines <==> t in s.lines || Reason(sgs, t)
    decreases |sgs|
  {
    if sgs != [] {
      var init, sg := sgs[..|sgs| - 1], sgs[|sgs| - 1];
      AddSuggestionsTitles(s, init, progname, values);
      MissingSnoc(sgs, values);
      var d := AddSuggestions(s, init, progname, values);
      if d.Ok? && sg.name in values {
        var line := Hint(progname, sg, values[sg.name]);
        var r := AddLine(d.value, sg.why, line);
        assert AddSuggestions(s, sgs, progname, values) == Ok(r);
        PutExtends(d.value, sg.why, (if sg.why in d.value.lines then d.value.lines[sg.why] else []) + [line]);
        ExtendsTransitive(s, d.value, r);
        forall t ensures t in r.lines <==> t in s.lines || Reason(sgs, t) {
          ReasonSnoc(sgs, t);
        }
      }
    }
  }

  /** The stages before the suggestions: requirements, the enable prompt, the validations. */
  lemma ChecksStageTitles(progname: string, reqs: seq<(string, seq<string>)>, checks: seq<Check>, values: map<string, string>)
    ensures var s0 := AddRequirements(NoSteps, reqs);
      var s2 := AddChecks(if AnyEnabled(checks) then s0 else Put(s0, EnableTitle, [EnableStep(progname)]), checks, values);
      && Extends(s2, s0)
      && forall t :: t in s2.lines <==>
           Requirement(reqs, t) || (t == EnableTitle && !AnyEnabled(checks)) || Complains(checks, values, t)
  {
    var s0 := AddRequirements(NoSteps, reqs);
    AddRequirementsTitles(NoSteps, reqs);
    var s1 := if AnyEnabled(checks) then s0 else Put(s0, EnableTitle, [EnableStep(progname)]);
    if !AnyEnabled(checks) {
      PutExtends(s0, EnableTitle, [EnableStep(progname)]);
    }
    AddChecksTitles(s1, checks, values);
    ExtendsTransitive(s0, s1, AddChecks(s1, checks, values));
  }

  /**
   * The titles `_get_setup_steps` lists: the operating-system requirements
   * first, then the prompt to enable a service when none of those examined
   * is enabled, every message of a validation function of an enabled service
   * and the reason of every differing suggestion. A suggestion whose
   * property has no current value is a `KeyError`.
   */
  lemma SetupStepsTitles(progname: string, reqs: seq<(string, seq<string>)>, checks: seq<Check>,
                         values: map<string, string>, sgs: seq<Suggestion>)
    ensures SetupSteps(progname, reqs, checks, values, sgs).Err? <==> Missing(sgs, values)
    ensures SetupSteps(progname, reqs, checks, values, sgs).Err? ==>
      var e := SetupSteps(progname, reqs, checks, values, sgs).error; e.KeyError? && e.key !in values
    ensures SetupSteps(progname, reqs, checks, values, sgs).Ok? ==>
      var st := SetupSteps(progname, reqs, checks, values, sgs).value;
      && Extends(st, AddRequirements(NoSteps, reqs))
      && forall t :: t in st.titles <==>
           Requirement(reqs, t) || (t == EnableTitle && !AnyEnabled(checks)) || Complains(checks, values, t) || Reason(sgs, t)
  {
    var s0 := AddRequirements(NoSteps, reqs);
    var s2 := AddChecks(if AnyEnabled(checks) then s0 else Put(s0, EnableTitle, [EnableStep(progname)]), checks, values);
    ChecksStageTitles(progname, reqs, checks, values);
    AddSuggestionsTitles(s2, sgs, progname, values);
    var r := AddSuggestions(s2, sgs, progname, values);
    assert SetupSteps(progname, reqs, checks, values, sgs) == r;
    if r.Ok? {
      var st := r.value;
      ExtendsTransitive(s0, s2, st);
      forall t ensures t in st.titles <==> t in st.lines {
        assert t in st.lines <==> t in st.lines.Keys;
      }
      forall t ensures t in st.titles <==>
        Requirement(reqs, t) || (t == EnableTitle && !AnyEnabled(checks)) || Complains(checks, values, t) || Reason(sgs, t)
      {
        assert t in st.lines <==> t in s2.lines || Reason(sgs, t);
      }
    }
  }

  /** Each stage leaves no titles exactly when it starts with none and has nothing to add. */
  lemma AddRequirementsEmpty(s: Steps, reqs: seq<(string, seq<string>)>)
    ensures AddRequirements(s, reqs).titles == [] <==> s.titles == [] && reqs == []
    decreases |reqs|
  {
  }

  lemma {:induction false} AddValidationsEmpty(s: Steps, fs: seq<Validation>, values: map<string, string>)
    ensures AddValidations(s, fs, values).titles == [] <==> s.titles == [] && forall j :: 0 <= j < |fs| ==> fs[j](values) == ""
    decreases |fs|
  {
    if fs != [] {
      var init := fs[..|fs| - 1];
      AddValidationsEmpty(s, init, values);
      assert forall j :: 0 <= j < |init| ==> init[j] == fs[j];
    }
  }

  lemma {:induction false} AddChecksEmpty(s: Steps, checks: seq<Check>, values: map<string, string>)
    ensures AddChecks(s, checks, values).titles == [] <==>
      && s.titles == []
      && forall i, j :: 0 <= i < |checks| && checks[i].enabled && 0 <= j < |checks[i].validations| ==>
           checks[i].validations[j](values) == ""
    decreases |checks|
  {
    if checks != [] {
      var init, c := checks[..|checks| - 1], checks[|checks| - 1];
      AddChecksEmpty(s, init, values);
      if c.enabled {
        AddValidationsEmpty(AddChecks(s, init, values), c.validations, values);
      }
      assert forall i :: 0 <= i < |init| ==> init[i] == checks[i];
    }
  }

  lemma AddSuggestionsEmpty(s: Steps, sgs: seq<Suggestion>, progname: string, values: map<string, string>)
    ensures (AddSuggestions(s, sgs, progname, values).Ok? && AddSuggestions(s, sgs, progname, values).value.titles == [])
      <==> s.titles == [] && sgs == []
    decreases |sgs|
  {
  }

  /**
   * `setup` reports success exactly when there are no operating-system
   * requirements and no differing suggestions, some examined service is
   * enabled, and no validation function of an enabled service complains.
   */
  lemma SetupCompleteIff(progname: string, reqs: seq<(string, seq<string>)>, checks: seq<Check>,
                         values: map<string, string>, sgs: seq<Suggestion>)
    ensures (SetupSteps(progname, reqs, checks, values, sgs).Ok? && SetupSteps(progname, reqs, checks, values, sgs).value.titles == [])
      <==> && reqs == [] && sgs == [] && AnyEnabled(checks)
           && forall i, j :: 0 <= i < |checks| && checks[i].enabled && 0 <= j < |checks[i].validations| ==>
                checks[i].validations[j](values) == ""
  {
    var s0 := AddRequirements(NoSteps, reqs);
    AddRequirementsEmpty(NoSteps, reqs);
    var s1 := if AnyEnabled(checks) then s0 else Put(s0, EnableTitle, [EnableStep(progname)]);
    AddChecksEmpty(s1, checks, values);
    AddSuggestionsEmpty(AddChecks(s1, checks, values), sgs, progname, values);
  }

  /** Once a suggestion lacks its current value, later ones change nothing: the `KeyError` stands. */
  lemma {:induction false} SuggestionsStopAt(s: Steps, sgs: seq<Suggestion>, progname: string, values: map<string, string>, k: nat)
    requires k <= |sgs| && AddSuggestions(s, sgs[..k], progname, values).Err?
    ensures AddSuggestions(s, sgs, progname, values) == AddSuggestions(s, sgs[..k], progname, values)
    decreases |sgs|
  {
    if k < |sgs| {
      var init := sgs[..|sgs| - 1];
      assert init[..k] == sgs[..k];
      SuggestionsStopAt(s, init, progname, values, k);
    } else {
      assert sgs[..k] == sgs;
    }
  }

  // ---------------------------------------------------------------------
  // The command-line interface
  // ---------------------------------------------------------------------

  /** A value of `services_by_name` comes from one of the pairs it was built from. */
  lemma {:induction false} LastValuesFrom<V>(pairs: seq<(string, V)>, n: string)
    requires n in LastValues(pairs)
    ensures exists k :: 0 <= k < |pairs| && pairs[k] == (n, LastValues(pairs)[n])
    decreases |pairs|
  {
    var init := pairs[..|pairs| - 1];
    if pairs[|pairs| - 1].0 != n {
      LastValuesFrom(init, n);
      var k :| 0 <= k < |init| && init[k] == (n, LastValues(init)[n]);
      assert pairs[k] == init[k];
    }
  }

  /** The services keyed by their priority, paired with their names, as `sorted` sees them. */
  function ByPriority(ps: seq<ServiceProfile>): (r: seq<Keyed<(string, ServiceProfile)>>)
    reads ps
    ensures |r| == |ps|
    ensures forall i :: 0 <= i < |ps| ==> r[i] == Keyed(ps[i].priority, (ps[i].def.name, ps[i]))
  {
    seq(|ps|, i reads ps requires 0 <= i < |ps| => Keyed(ps[i].priority, (ps[i].def.name, ps[i])))
  }

  /** What the setup check reads of the services it examines. */
  function ChecksOf(ss: seq<ServiceProfile>): (r: seq<Check>)
    reads ss
    ensures |r| == |ss|
    ensures forall i :: 0 <= i < |ss| ==> r[i] == Check(ss[i].enabled, ss[i].def.propValidationFunctions)
  {
    seq(|ss|, i reads ss requires 0 <= i < |ss| => Check(ss[i].enabled, ss[i].def.propValidationFunctions))
  }

  /** Services were acted on in the order of `all`, stopping after the first one that failed. */
  predicate InOrder(all: seq<string>, r: Result<(), Fault>, acted: seq<string>) {
    && acted <= all
    && (r.Ok? ==> acted == all)
    && (r.Err? ==> acted != [])
  }

  /**
   * `calls` are the operation `op` invoked on the services named `acted`, in
   * order: every call but the last succeeded, and the last one ended as `r`.
   */
  predicate CallsMade(calls: seq<Call>, op: Op, acted: seq<string>, r: Result<(), Fault>)
    decreases |acted|
  {
    && |calls| == |acted|
    && (acted != [] ==>
          && calls[|acted| - 1] == Call(acted[|acted| - 1], op, r)
          && CallsMade(calls[..|acted| - 1], op, acted[..|acted| - 1], Ok(())))
  }

  /** Call by call: the `i`-th call is `op` on `acted[i]`, and only the last may have failed. */
  lemma {:induction false} CallsMadeAt(calls: seq<Call>, op: Op, acted: seq<string>, r: Result<(), Fault>)
    requires CallsMade(calls, op, acted, r)
    ensures |calls| == |acted|
    ensures forall i :: 0 <= i < |acted| ==> calls[i].service == acted[i] && calls[i].op == op
    ensures forall i :: 0 <= i < |acted| - 1 ==> calls[i].outcome.Ok?
    ensures acted != [] ==> calls[|acted| - 1].outcome == r
    decreases |acted|
  {
    if acted != [] {
      var n := |acted| - 1;
      CallsMadeAt(calls[..n], op, acted[..n], Ok(()));
      assert forall i :: 0 <= i < n ==> calls[i] == calls[..n][i] && acted[i] == acted[..n][i];
    }
  }

  /** The call log grew from `before` to `after` by exactly those calls. */
  predicate Logged(before: seq<Call>, after: seq<Call>, op: Op, acted: seq<string>, r: Result<(), Fault>) {
    |before| <= |after| && after[..|before|] == before && CallsMade(after[|before|..], op, acted, r)
  }

  /** No call at all. */
  lemma LoggedNone(log: seq<Call>, op: Op, r: Result<(), Fault>)
    ensures Logged(log, log, op, [], r)
  {
    assert log[..|log|] == log;
  }

  /** One more call, after calls that all succeeded. */
  lemma LoggedSnoc(before: seq<Call>, after: seq<Call>, op: Op, acted: seq<string>, c: Call)
    requires Logged(before, after, op, acted, Ok(())) && c.op == op
    ensures Logged(before, after + [c], op, acted + [c.service], c.outcome)
    ensures c.outcome.Ok? ==> Logged(before, after + [c], op, acted + [c.service], Ok(()))
  {
    var tail := (after + [c])[|before|..];
    assert (after + [c])[..|before|] == before;
    assert tail == after[|before|..] + [c];
    assert tail[..|acted|] == after[|before|..];
    assert (acted + [c.service])[..|acted|] == acted;
    if c.outcome.Ok? {
      // `()` has one value, but the solver needs the match to see it through the generic `Result`.
      match c.outcome.value { case () => assert c.outcome == Ok(()); }
    }
  }

  function Reverse<U>(s: seq<U>): (r: seq<U>)
    ensures |r| == |s| && forall i :: 0 <= i < |s| ==> r[i] == s[|s| - 1 - i]
    decreases |s|
  {
    if s == [] then [] else [s[|s| - 1]] + Reverse(s[..|s| - 1])
  }

  /** The errors `assign_template_values` raises: a template that does not render, a missing or malformed value. */
  predicate AssignmentFault(e: Fault) {
    e == TemplateError || e.KeyError? || e.ValueError?
  }

  /** `service.assign_template_values(template_values)`, as much of it as the front end relies on. */
  method Prepare(p: ServiceProfile, templateValues: map<string, string>) returns (r: Result<(), Fault>)
    requires EncodeInjective(ValuesOf(p.def, templateValues).Keys)
    modifies p
    ensures r.Ok? ==> p.Ready()
    ensures r.Err? ==> AssignmentFault(r.error)
  {
    AssignmentFaults(p.def, templateValues);
    r := p.AssignTemplateValues(templateValues);
  }

  /** The loop of `CLI.__init__` that assigns the template values to every service, stopping at the first failure. */
  method AssignAll(profiles: seq<ServiceProfile>, templateValues: map<string, string>) returns (r: Result<(), Fault>)
    requires forall i :: 0 <= i < |profiles| ==> EncodeInjective(ValuesOf(profiles[i].def, templateValues).Keys)
    modifies set i | 0 <= i < |profiles| :: profiles[i]
    ensures r.Ok? ==> forall i :: 0 <= i < |profiles| ==> profiles[i].Ready()
    ensures r.Err? ==> AssignmentFault(r.error)
  {
    for i := 0 to |profiles|
      invariant forall j :: 0 <= j < i ==> profiles[j].Ready()
    {
      var outcome := Prepare(profiles[i], templateValues);
      if outcome.Err? {
        return Err(outcome.error);
      }
    }
    return Ok(());
  }

  /** Every value of `services_by_name` is one of the services given. */
  lemma ValueReady(profiles: seq<ServiceProfile>, n: string)
    requires forall i :: 0 <= i < |profiles| ==> profiles[i].Ready()
    requires n in LastValues(Items(SortByKey(ByPriority(profiles))))
    ensures LastValues(Items(SortByKey(ByPriority(profiles))))[n].Ready()
    ensures LastValues(Items(SortByKey(ByPriority(profiles))))[n].def.name == n
  {
    var keyed := ByPriority(profiles);
    var sorted := SortByKey(keyed);
    var pairs := Items(sorted);
    SortSortedPermutation(keyed);
    LastValuesFrom(pairs, n);
    var k :| 0 <= k < |pairs| && pairs[k] == (n, LastValues(pairs)[n]);
    assert sorted[k] in multiset(keyed);
  }

  /** `services_by_name.values()`: the service of each name, in the order of the names. */
  /** Each service in `services` is defined under the name at the same place in `names`. */
  predicate NamedAs(services: seq<ServiceProfile>, names: seq<string>)
    decreases |names|
  {
    && |services| == |names|
    && (names != [] ==>
          && services[|names| - 1].def.name == names[|names| - 1]
          && NamedAs(services[..|names| - 1], names[..|names| - 1]))
  }

  lemma {:induction false} NamedAt(services: seq<ServiceProfile>, names: seq<string>, i: nat)
    requires NamedAs(services, names) && i < |names|
    ensures services[i].def.name == names[i]
    decreases |names|
  {
    var n := |names| - 1;
    if i < n {
      NamedAt(services[..n], names[..n], i);
    }
  }

  lemma NamedSnoc(services: seq<ServiceProfile>, names: seq<string>, s: ServiceProfile)
    requires NamedAs(services, names)
    ensures NamedAs(services + [s], names + [s.def.name])
  {
    assert (services + [s])[..|names|] == services;
    assert (names + [s.def.name])[..|names|] == names;
  }

  /**
   * The three views of an ordered dictionary of services agree: its keys in
   * order, each listed once, the service of each key, and its values in the
   * same order, each defined under its own key.
   */
  ghost predicate IndexedInOrder(names: seq<string>, byName: map<string, ServiceProfile>, services: seq<ServiceProfile>) {
    && |names| == |services| && Distinct(names)
    && (forall n :: n in byName <==> n in names)
    && (forall i :: 0 <= i < |names| ==> names[i] in byName && byName[names[i]] == services[i])
    && NamedAs(services, names)
  }

  /** The services filed under `names` in `byName`, in the order of `names`. */
  method LookUpAll(names: seq<string>, byName: map<string, ServiceProfile>) returns (services: seq<ServiceProfile>)
    requires forall n :: n in names ==> n in byName && byName[n].Ready() && byName[n].def.name == n
    ensures |services| == |names| && NamedAs(services, names)
    ensures forall j :: 0 <= j < |names| ==> byName[names[j]] == services[j] && services[j].Ready()
  {
    services := [];
    for i := 0 to |names|
      invariant |services| == i
      invariant forall j :: 0 <= j < i ==> byName[names[j]] == services[j] && services[j].Ready()
      invariant NamedAs(services, names[..i])
    {
      NamedSnoc(services, names[..i], byName[names[i]]);
      assert names[..i] + [names[i]] == names[..i + 1];
      services := services + [byName[names[i]]];
    }
    assert names[..|names|] == names;
  }

  method ValuesInOrder(profiles: seq<ServiceProfile>) returns (services: seq<ServiceProfile>)
    requires forall i :: 0 <= i < |profiles| ==> profiles[i].Ready()
    ensures var pairs := Items(SortByKey(ByPriority(profiles)));
      IndexedInOrder(FirstNames(pairs), LastValues(pairs), services)
    ensures forall j :: 0 <= j < |services| ==> services[j].Ready()
  {
    var pairs := Items(SortByKey(ByPriority(profiles)));
    var names := FirstNames(pairs);
    var byName := LastValues(pairs);
    OrderedDictNames(pairs);
    forall n | n in names
      ensures n in byName && byName[n].Ready() && byName[n].def.name == n
    {
      ValueReady(profiles, n);
    }
    services := LookUpAll(names, byName);
  }


  /**
   * `CLI.__init__`: assign the template values to every service, then
   * index the services by name in order of priority.
   */
  method NewCli(progname: string, templateValues: map<string, string>, osRequirements: seq<(string, seq<string>)>,
                suggestions: seq<Suggestion>, profiles: seq<ServiceProfile>) returns (r: Result<Cli, Fault>)
    requires forall i :: 0 <= i < |profiles| ==> EncodeInjective(ValuesOf(profiles[i].def, templateValues).Keys)
    modifies set i | 0 <= i < |profiles| :: profiles[i]
    ensures r.Err? ==> AssignmentFault(r.error)
    ensures r.Ok? ==>
      && (forall i :: 0 <= i < |profiles| ==> profiles[i].Ready())
      && var cli := r.value;
         var sorted := SortByKey(ByPriority(profiles));
         && fresh(cli) && cli.Valid()
         && cli.progname == progname && cli.templateValues == templateValues
         && cli.osRequirements == osRequirements && cli.suggestions == suggestions
         && cli.names == FirstNames(Items(sorted)) && cli.byName == LastValues(Items(sorted))
  {
    var outcome := AssignAll(profiles, templateValues);
    if outcome.Err? {
      return Err(outcome.error);
    }
    var pairs := Items(SortByKey(ByPriority(profiles)));
    var services := ValuesInOrder(profiles);
    var cli := new Cli(progname, templateValues, osRequirements, suggestions, FirstNames(pairs), LastValues(pairs), services);
    return Ok(cli);
  }

  /** One service's `start`, `stop` or `graceful`, as the command-line interface uses it: only its outcome matters there. */
  method Invoke(os: Os, service: ServiceProfile, op: Op) returns (r: Result<(), Fault>)
    requires os.Valid() && service.Ready()
    modifies os, os.log
    ensures os.Valid() && os.log.calls == old(os.log.calls) + [Call(service.def.name, op, r)]
    ensures Logged(old(os.log.calls), os.log.calls, op, [service.def.name], r)
  {
    match op {
      case OpStart => var outcome, _, _, _ := service.Start(os); r := outcome;
      case OpStop => var outcome, _, _ := service.Stop(os); r := outcome;
      case OpGraceful => var outcome, _, _ := service.Graceful(os); r := outcome;
    }
    LoggedNone(old(os.log.calls), op, Ok(()));
    LoggedSnoc(old(os.log.calls), old(os.log.calls), op, [], Call(service.def.name, op, r));
  }


  /** For the enabled services of `all`, listed as `examined`: some check is enabled exactly when some service is. */
  lemma EnabledChecks(all: seq<ServiceProfile>, examined: seq<ServiceProfile>)
    requires forall i :: 0 <= i < |examined| ==> examined[i] in all && examined[i].enabled
    requires forall m :: 0 <= m < |all| && all[m].enabled ==> all[m] in examined
    ensures AnyEnabled(ChecksOf(examined)) <==> exists m :: 0 <= m < |all| && all[m].enabled
  {
    var checks := ChecksOf(examined);
    if AnyEnabled(checks) {
      var i :| 0 <= i < |checks| && checks[i].enabled;
      var m :| 0 <= m < |all| && all[m] == examined[i];
    }
    if exists m :: 0 <= m < |all| && all[m].enabled {
      var m :| 0 <= m < |all| && all[m].enabled;
      var i :| 0 <= i < |examined| && examined[i] == all[m];
      assert checks[i].enabled;
    }
  }

  /** ... and the validations of the enabled checks all pass exactly when those of the enabled services do. */
  lemma EnabledChecksPass(all: seq<ServiceProfile>, examined: seq<ServiceProfile>, values: map<string, string>)
    requires forall i :: 0 <= i < |examined| ==> examined[i] in all && examined[i].enabled
    requires forall m :: 0 <= m < |all| && all[m].enabled ==> all[m] in examined
    ensures (forall i, j :: 0 <= i < |ChecksOf(examined)| && ChecksOf(examined)[i].enabled && 0 <= j < |ChecksOf(examined)[i].validations| ==>
               ChecksOf(examined)[i].validations[j](values) == "")
        <==> (forall m, j :: 0 <= m < |all| && all[m].enabled && 0 <= j < |all[m].def.propValidationFunctions| ==>
               all[m].def.propValidationFunctions[j](values) == "")
  {
    var checks := ChecksOf(examined);
    if forall i, j :: 0 <= i < |checks| && checks[i].enabled && 0 <= j < |checks[i].validations| ==> checks[i].validations[j](values) == "" {
      forall m, j | 0 <= m < |all| && all[m].enabled && 0 <= j < |all[m].def.propValidationFunctions|
        ensures all[m].def.propValidationFunctions[j](values) == ""
      {
        var i :| 0 <= i < |examined| && examined[i] == all[m];
        assert checks[i].enabled && checks[i].validations == all[m].def.propValidationFunctions;
      }
    }
    if forall m, j :: 0 <= m < |all| && all[m].enabled && 0 <= j < |all[m].def.propValidationFunctions| ==> all[m].def.propValidationFunctions[j](values) == "" {
      forall i, j | 0 <= i < |checks| && checks[i].enabled && 0 <= j < |checks[i].validations|
        ensures checks[i].validations[j](values) == ""
      {
        var m :| 0 <= m < |all| && all[m] == examined[i];
      }
    }
  }

  /** The names of the enabled services among the first `k`, in order. */
  function EnabledOf(services: seq<ServiceProfile>, names: seq<string>, k: nat): seq<string>
    requires k <= |services| == |names|
    reads services
  {
    if k == 0 then [] else EnabledOf(services, names, k - 1) + (if services[k - 1].enabled then [names[k - 1]] else [])
  }

  lemma {:induction false} EnabledOfGrows(services: seq<ServiceProfile>, names: seq<string>, i: nat, k: nat)
    requires i <= k <= |services| == |names|
    ensures EnabledOf(services, names, i) <= EnabledOf(services, names, k)
    decreases k
  {
    if i < k {
      EnabledOfGrows(services, names, i, k - 1);
    }
  }

  method InvokeEnabled(os: Os, services: seq<ServiceProfile>, names: seq<string>, op: Op) returns (r: Result<(), Fault>, acted: seq<string>)
    requires os.Valid() && NamedAs(services, names) && forall i :: 0 <= i < |services| ==> services[i].Ready()
    modifies os, os.log
    ensures os.Valid()
    ensures EnabledOf(services, names, |services|) == old(EnabledOf(services, names, |services|))
    ensures InOrder(EnabledOf(services, names, |services|), r, acted)
    ensures Logged(old(os.log.calls), os.log.calls, op, acted, r)
  {
    acted := [];
    LoggedNone(os.log.calls, op, Ok(()));
    forall k | 0 <= k <= |services|
      ensures EnabledOf(services, names, k) <= EnabledOf(services, names, |services|)
    {
      EnabledOfGrows(services, names, k, |services|);
    }
    for i := 0 to |services|
      invariant os.Valid()
      invariant acted == old(EnabledOf(services, names, i))
      invariant Logged(old(os.log.calls), os.log.calls, op, acted, Ok(()))
    {
      assert services[i].enabled == old(services[i].enabled);
      if services[i].enabled {
        ghost var before := os.log.calls;
        NamedAt(services, names, i);
        var outcome := Invoke(os, services[i], op);
        LoggedSnoc(old(os.log.calls), before, op, acted, Call(names[i], op, outcome));
        acted := acted + [names[i]];
        assert acted == old(EnabledOf(services, names, i + 1));
        if outcome.Err? {
          return outcome, acted;
        }
      }
    }
    return Ok(()), acted;
  }

  /** The command-line interface over the configured services. */
  class Cli {
    const progname: string
    const templateValues: map<string, string>
    const osRequirements: seq<(string, seq<string>)>
    const suggestions: seq<Suggestion>
    /** `services_by_name`: its keys in order, the service of each key, and its values in the same order. */
    const names: seq<string>
    const byName: map<string, ServiceProfile>
    const services: seq<ServiceProfile>

    constructor (progname: string, templateValues: map<string, string>, osRequirements: seq<(string, seq<string>)>,
                 suggestions: seq<Suggestion>, names: seq<string>, byName: map<string, ServiceProfile>,
                 services: seq<ServiceProfile>)
      ensures this.progname == progname && this.templateValues == templateValues
      ensures this.osRequirements == osRequirements && this.suggestions == suggestions
      ensures this.names == names && this.byName == byName && this.services == services
    {
      this.progname := progname;
      this.templateValues := templateValues;
      this.osRequirements := osRequirements;
      this.suggestions := suggestions;
      this.names := names;
      this.byName := byName;
      this.services := services;
    }

    /** The three views of `services_by_name` agree. */
    ghost predicate Ordered() {
      IndexedInOrder(names, byName, services)
    }

    /** ... and every service has had its template values assigned. */
    ghost predicate Valid()
      reads services
    {
      Ordered() && forall i :: 0 <= i < |services| ==> services[i].Ready()
    }

    /** The enabled services among the first `k`, in order. */
    function EnabledServices(k: nat): (r: seq<ServiceProfile>)
      requires Ordered() && k <= |services|
      reads services
      ensures forall i :: 0 <= i < |r| ==> r[i] in services
    {
      if k == 0 then [] else EnabledServices(k - 1) + (if services[k - 1].enabled then [services[k - 1]] else [])
    }

    /** Each service `EnabledServices` lists is enabled, and each enabled one is listed. */
    lemma {:induction false} EnabledServicesExactly(k: nat)
      requires Ordered() && k <= |services|
      ensures forall i :: 0 <= i < |EnabledServices(k)| ==> EnabledServices(k)[i].enabled
      ensures forall i :: 0 <= i < k && services[i].enabled ==> services[i] in EnabledServices(k)
      decreases k
    {
      if k > 0 {
        EnabledServicesExactly(k - 1);
        var prev, last := EnabledServices(k - 1), services[k - 1];
        var tail := if last.enabled then [last] else [];
        assert EnabledServices(k) == prev + tail;
        forall i | 0 <= i < k && services[i].enabled ensures services[i] in EnabledServices(k) {
          if i < k - 1 {
            assert services[i] in prev;
          } else {
            assert services[i] in tail;
          }
        }
      }
    }

    lemma ServiceListed(n: string)
      requires Ordered() && n in byName
      ensures byName[n] in services && byName[n].def.name == n
    {
      var i :| 0 <= i < |names| && names[i] == n;
      NamedAt(services, names, i);
    }

    /** The services `setup` examines: the enabled ones, or the one named. */
    function Examined(serviceName: Option<string>): (r: seq<ServiceProfile>)
      requires Ordered() && (serviceName.Some? ==> serviceName.value in byName)
      reads services
      ensures forall i :: 0 <= i < |r| ==> r[i] in services
    {
      if serviceName.None? then EnabledServices(|services|)
      else (ServiceListed(serviceName.value); [byName[serviceName.value]])
    }

    /** Whether `setup` finds nothing to do. */
    function SetupVerdict(serviceName: Option<string>): Result<bool, Fault>
      requires Ordered() && (serviceName.Some? ==> serviceName.value in byName)
      reads services
    {
      var st :- SetupSteps(progname, osRequirements, ChecksOf(Examined(serviceName)), templateValues, suggestions);
      Ok(st.titles == [])
    }

    /**
     * `setup` with no service name says the setup is complete exactly when
     * there are no requirements and no differing suggestions, some service is
     * enabled, and no validation function of an enabled service complains.
     */
    lemma SetupVerdictAll()
      requires Ordered()
      ensures SetupVerdict(None) == Ok(true) <==>
        && osRequirements == [] && suggestions == []
        && (exists i :: 0 <= i < |services| && services[i].enabled)
        && forall i, j :: 0 <= i < |services| && services[i].enabled && 0 <= j < |services[i].def.propValidationFunctions| ==>
             services[i].def.propValidationFunctions[j](templateValues) == ""
    {
      var examined := EnabledServices(|services|);
      EnabledServicesExactly(|services|);
      EnabledChecks(services, examined);
      EnabledChecksPass(services, examined, templateValues);
      SetupCompleteIff(progname, osRequirements, ChecksOf(examined), templateValues, suggestions);
    }

    /** `start` runs the setup check unless `--skip-setup` is given or `main.skip_setup` is set. */
    predicate RunsSetup(skipSetup: bool) {
      var persistent := GetValue(templateValues, "main.skip_setup");
      !skipSetup && !(persistent.Some? && persistent.value in {"True", "true", "1"})
    }

    /**
     * `--skip-setup` always skips the setup check. `main.skip_setup` skips it
     * only when spelled `True`, `true` or `1`; `on` and `yes`, which do
     * enable a service, do not skip it.
     */
    lemma SkipSetupSpellings()
      ensures !RunsSetup(true)
      ensures "main.skip_setup" !in templateValues ==> RunsSetup(false)
      ensures "main.skip_setup" in templateValues && templateValues["main.skip_setup"] in {"on", "yes"} ==> RunsSetup(false)
      ensures "main.skip_setup" in templateValues && templateValues["main.skip_setup"] in {"True", "true", "1"} ==> !RunsSetup(false)
    {
    }

    /** `_get_setup_steps(services)`. */
    method GetSetupSteps(examined: seq<ServiceProfile>) returns (r: Result<Steps, Fault>)
      ensures r == SetupSteps(progname, osRequirements, ChecksOf(examined), templateValues, suggestions)
    {
      var steps := NoSteps;
      for i := 0 to |osRequirements|
        invariant steps == AddRequirements(NoSteps, osRequirements[..i])
      {
        assert osRequirements[..i + 1][..i] == osRequirements[..i];
        steps := Put(steps, osRequirements[i].0, osRequirements[i].1);
      }
      assert osRequirements[..|osRequirements|] == osRequirements;
      var checks := ChecksOf(examined);
      if !AnyEnabled(checks) {
        steps := Put(steps, EnableTitle, [EnableStep(progname)]);
      }
      ghost var s1 := steps;
      for i := 0 to |examined|
        invariant steps == AddChecks(s1, checks[..i], templateValues)
      {
        assert checks[..i + 1][..i] == checks[..i];
        if examined[i].enabled {
          var fs := examined[i].def.propValidationFunctions;
          ghost var before := steps;
          for j := 0 to |fs|
            invariant steps == AddValidations(before, fs[..j], templateValues)
          {
            assert fs[..j + 1][..j] == fs[..j];
            var title := fs[j](templateValues);
            if title != "" {
              steps := Put(steps, title, []);
            }
          }
          assert fs[..|fs|] == fs;
        }
      }
      assert checks[..|examined|] == checks;
      ghost var s2 := steps;
      for k := 0 to |suggestions|
        invariant AddSuggestions(s2, suggestions[..k], progname, templateValues) == Ok(steps)
      {
        var sg := suggestions[k];
        assert suggestions[..k + 1][..k] == suggestions[..k];
        if sg.name !in templateValues {
          SuggestionsStopAt(s2, suggestions, progname, templateValues, k + 1);
          return Err(KeyError(sg.name));
        }
        steps := AddLine(steps, sg.why, Hint(progname, sg, templateValues[sg.name]));
      }
      assert suggestions[..|suggestions|] == suggestions;
      return Ok(steps);
    }

    /** `setup`: true exactly when no setup step is listed for the examined services. */
    method Setup(serviceName: Option<string>) returns (r: Result<bool, Fault>)
      requires Valid() && (serviceName.Some? ==> serviceName.value in byName)
      ensures r == SetupVerdict(serviceName)
    {
      var examined: seq<ServiceProfile>;
      if serviceName.None? {
        examined := [];
        for i := 0 to |services|
          invariant examined == EnabledServices(i)
        {
          if services[i].enabled {
            examined := examined + [services[i]];
          }
        }
      } else {
        examined := [byName[serviceName.value]];
      }
      var steps := GetSetupSteps(examined);
      if steps.Err? {
        return Err(steps.error);
      }
      return Ok(steps.value.titles == []);
    }
  
    /**
     * `start`: unless skipped, the setup check must pass (otherwise exit
     * with status 1 before anything starts); then every enabled service in
     * priority order, or the one named whether enabled or not. A service
     * that fails to start ends the command.
     */
    method Start(os: Os, serviceName: Option<string>, skipSetup: bool) returns (r: Result<(), Fault>, acted: seq<string>)
      requires Valid() && os.Valid() && (serviceName.Some? ==> serviceName.value in byName)
      modifies os, os.log
      ensures os.Valid()
      ensures Logged(old(os.log.calls), os.log.calls, OpStart, acted, r)
      ensures RunsSetup(skipSetup) && old(SetupVerdict(serviceName)) != Ok(true) ==>
        && acted == [] && unchanged(os) && os.log.calls == old(os.log.calls)
        && r == Err(if old(SetupVerdict(serviceName)).Err? then old(SetupVerdict(serviceName)).error else SystemExit(1))
      ensures !RunsSetup(skipSetup) || old(SetupVerdict(serviceName)) == Ok(true) ==>
        if serviceName.None? then InOrder(EnabledOf(services, names, |services|), r, acted) else acted == [serviceName.value]
    {
      if RunsSetup(skipSetup) {
        var setupOk := Setup(serviceName);
        if setupOk.Err? || !setupOk.value {
          r := if setupOk.Err? then Err(setupOk.error) else Err(SystemExit(1));
          LoggedNone(os.log.calls, OpStart, r);
          return r, [];
        }
      }
      if serviceName.Some? {
        ServiceListed(serviceName.value);
        var outcome := Invoke(os, byName[serviceName.value], OpStart);
        return outcome, [serviceName.value];
      }
      r, acted := InvokeEnabled(os, services, names, OpStart);
    }

    /** `stop`: every service, enabled or not, in reverse priority order, or the one named. */
    method Stop(os: Os, serviceName: Option<string>) returns (r: Result<(), Fault>, acted: seq<string>)
      requires Valid() && os.Valid() && (serviceName.Some? ==> serviceName.value in byName)
      modifies os, os.log
      ensures os.Valid() && unchanged(services)
      ensures if serviceName.None? then InOrder(Reverse(names), r, acted) else acted == [serviceName.value]
      ensures Logged(old(os.log.calls), os.log.calls, OpStop, acted, r)
    {
      if serviceName.Some? {
        ServiceListed(serviceName.value);
        var outcome := Invoke(os, byName[serviceName.value], OpStop);
        return outcome, [serviceName.value];
      }
      r, acted := StopAll(os);
    }

    /** The loop of `stop` over `services_by_name.values()[::-1]`. */
    method StopAll(os: Os) returns (r: Result<(), Fault>, acted: seq<string>)
      requires Valid() && os.Valid()
      modifies os, os.log
      ensures os.Valid()
      ensures InOrder(Reverse(names), r, acted)
      ensures Logged(old(os.log.calls), os.log.calls, OpStop, acted, r)
    {
      acted := [];
      LoggedNone(os.log.calls, OpStop, Ok(()));
      for i := 0 to |services|
        invariant os.Valid()
        invariant acted == Reverse(names)[..i]
        invariant Logged(old(os.log.calls), os.log.calls, OpStop, acted, Ok(()))
      {
        var k := |services| - 1 - i;
        assert Reverse(names)[..i + 1] == acted + [names[k]];
        ghost var before := os.log.calls;
        NamedAt(services, names, k);
        var outcome := Invoke(os, services[k], OpStop);
        assert os.log.calls == before + [Call(names[k], OpStop, outcome)];
        LoggedSnoc(old(os.log.calls), before, OpStop, acted, Call(names[k], OpStop, outcome));
        acted := acted + [names[k]];
        if outcome.Err? {
          return outcome, acted;
        }
      }
      assert Reverse(names)[..|services|] == Reverse(names);
      return Ok(()), acted;
    }

    /** `restart --graceful`: the graceful restart of every enabled service in priority order, or of the one named. */
    method GracefulRestart(os: Os, serviceName: Option<string>) returns (r: Result<(), Fault>, acted: seq<string>)
      requires Valid() && os.Valid() && (serviceName.Some? ==> serviceName.value in byName)
      modifies os, os.log
      ensures os.Valid()
      ensures Logged(old(os.log.calls), os.log.calls, OpGraceful, acted, r)
      ensures if serviceName.None? then InOrder(EnabledOf(services, names, |services|), r, acted) else acted == [serviceName.value]
    {
      if serviceName.Some? {
        ServiceListed(serviceName.value);
        r := Invoke(os, byName[serviceName.value], OpGraceful);
        return r, [serviceName.value];
      }
      r, acted := InvokeEnabled(os, services, names, OpGraceful);
    }

    /**
     * `restart`: with `--graceful`, the graceful restart of every enabled
     * service in priority order (or of the one named); otherwise `stop`
     * then `start`, the start only once the stop has succeeded.
     */
    method Restart(os: Os, serviceName: Option<string>, graceful: bool, skipSetup: bool)
      returns (r: Result<(), Fault>, stopped: seq<string>, started: seq<string>,
               ghost stopOutcome: Result<(), Fault>, ghost midLog: seq<Call>)
      requires Valid() && os.Valid() && (serviceName.Some? ==> serviceName.value in byName)
      modifies os, os.log
      ensures os.Valid()
      ensures graceful ==> Logged(old(os.log.calls), os.log.calls, OpGraceful, started, r)
      ensures !graceful ==>
        && Logged(old(os.log.calls), midLog, OpStop, stopped, stopOutcome)
        && (stopOutcome.Err? ==> r == stopOutcome && started == [] && os.log.calls == midLog)
        && (stopOutcome.Ok? ==> Logged(midLog, os.log.calls, OpStart, started, r))
      ensures graceful ==>
        && stopped == []
        && if serviceName.None? then InOrder(EnabledOf(services, names, |services|), r, started) else started == [serviceName.value]
      ensures !graceful ==>
        && (if serviceName.None? then stopped <= Reverse(names) else stopped == [serviceName.value])
        && (started != [] ==> stopped == (if serviceName.None? then Reverse(names) else [serviceName.value]))
        && (RunsSetup(skipSetup) && old(SetupVerdict(serviceName)) != Ok(true) ==> started == [] && r.Err?)
        && (r.Ok? ==> !(RunsSetup(skipSetup) && old(SetupVerdict(serviceName)) != Ok(true)))
        && (r.Ok? && serviceName.None? ==> stopped == Reverse(names) && started == EnabledOf(services, names, |services|))
        && (r.Ok? && serviceName.Some? ==> started == [serviceName.value])
    {
      stopped, stopOutcome, midLog := [], Ok(()), os.log.calls;
      if graceful {
        r, started := GracefulRestart(os, serviceName);
        return;
      }
      r, stopped := Stop(os, serviceName);
      stopOutcome, midLog := r, os.log.calls;
      if r.Err? {
        return r, stopped, [], stopOutcome, midLog;
      }
      r, started := Start(os, serviceName, skipSetup);
    }

    /** `status`: every service, enabled or not, in priority order, or the one named, with the pid found running. */
    method Status(os: Os, serviceName: Option<string>) returns (report: seq<(string, Option<int>)>)
      requires Valid() && os.Valid() && (serviceName.Some? ==> serviceName.value in byName)
      modifies os
      ensures os.Valid()
      ensures serviceName.None? ==> |report| == |names| && forall i :: 0 <= i < |names| ==> report[i].0 == names[i]
      ensures serviceName.Some? ==> |report| == 1 && report[0].0 == serviceName.value
    {
      if serviceName.Some? {
        ServiceListed(serviceName.value);
        var running := byName[serviceName.value].Status(os);
        return [(serviceName.value, running)];
      }
      report := [];
      for i := 0 to |services|
        invariant os.Valid()
        invariant |report| == i && forall j :: 0 <= j < i ==> report[j].0 == names[j]
      {
        var running := services[i].Status(os);
        report := report + [(names[i], running)];
      }
    }
  }
}
