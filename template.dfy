/**
 * The template engine: `{{dotted.key}}` placeholders rendered against a
 * value map, with dots in keys transcoded to "___" around the rendering so
 * that the mustache engine does not read them as attribute paths, and the
 * fixed-point loop that resolves every value of a map against the map
 * itself.
 */
module Template {
  import opened Common

  datatype TemplateError =
    | KeyNotFound      // a placeholder names a key absent from the value map
    | NotConverged     // no rendering pass within the budget was stable

  /** The number of occurrences of `c` in `s`. */
  function Occurrences(s: string, c: char): nat {
    if s == [] then 0 else (if s[0] == c then 1 else 0) + Occurrences(s[1..], c)
  }

  /** True when "___" occurs somewhere in `s`. */
  predicate HasTriple(s: string) {
    exists i :: 0 <= i < |s| - 2 && s[i] == '_' && s[i + 1] == '_' && s[i + 2] == '_'
  }

  // ---------------------------------------------------------------------
  // Transcoding
  // ---------------------------------------------------------------------

  /** `_dots_to_triple_under`: every '.' becomes "___". */
  function Encode(s: string): string {
    if s == [] then []
    else (if s[0] == '.' then "___" else [s[0]]) + Encode(s[1..])
  }

  /** The encoding holds no '.' and is two characters longer per '.' of the input. */
  lemma {:induction false} EncodeRemovesDots(s: string)
    ensures '.' !in Encode(s)
    ensures |Encode(s)| == |s| + 2 * Occurrences(s, '.')
  {
    if s != [] {
      EncodeRemovesDots(s[1..]);
    }
  }

  /** A string without '.' is its own encoding. */
  lemma {:induction false} EncodeDotFree(s: string)
    requires '.' !in s
    ensures Encode(s) == s
  {
    if s != [] {
      assert s == [s[0]] + s[1..];
      EncodeDotFree(s[1..]);
    }
  }

  /** `_triple_under_to_dots`: "___" becomes '.', scanning leftmost first without overlap. */
  function Decode(s: string): string {
    if |s| >= 3 && s[0] == '_' && s[1] == '_' && s[2] == '_' then "." + Decode(s[3..])
    else if s == [] then []
    else [s[0]] + Decode(s[1..])
  }

  /**
   * The strings the transcoding round-trips: no '_' right before a '.', and
   * no "___". Keys such as `main.pidfile_dir` qualify.
   */
  predicate Transcodable(s: string) {
    && (forall i :: 0 <= i < |s| - 1 ==> !(s[i] == '_' && s[i + 1] == '.'))
    && !HasTriple(s)
  }

  lemma {:induction false} DecodeWithoutTriple(s: string)
    requires !HasTriple(s)
    ensures Decode(s) == s
  {
    if s != [] {
      var t := s[1..];
      forall i | 0 <= i < |t| - 2 ensures !(t[i] == '_' && t[i + 1] == '_' && t[i + 2] == '_') {
        assert t[i] == s[i + 1] && t[i + 1] == s[i + 2] && t[i + 2] == s[i + 3];
      }
      DecodeWithoutTriple(t);
    }
  }

  lemma TranscodableTail(s: string)
    requires s != [] && Transcodable(s)
    ensures Transcodable(s[1..])
  {
    var t := s[1..];
    forall i | 0 <= i < |t| - 1 ensures !(t[i] == '_' && t[i + 1] == '.') {
      assert t[i] == s[i + 1] && t[i + 1] == s[i + 2];
    }
    forall i | 0 <= i < |t| - 2 ensures !(t[i] == '_' && t[i + 1] == '_' && t[i + 2] == '_') {
      assert t[i] == s[i + 1] && t[i + 1] == s[i + 2] && t[i + 2] == s[i + 3];
    }
  }

  /** Encoding starts with '_' exactly when the string starts with '_' or '.'. */
  lemma EncodeHead(s: string)
    requires s != []
    ensures Encode(s)[0] == (if s[0] == '.' then '_' else s[0])
    ensures s[0] == '.' ==> Encode(s)[..3] == "___"
  {
  }

  /** Decoding undoes encoding for transcodable strings. */
  lemma {:induction false} DecodeEncode(s: string)
    requires Transcodable(s)
    ensures Decode(Encode(s)) == s
  {
    if s != [] {
      TranscodableTail(s);
      DecodeEncode(s[1..]);
      var e := Encode(s[1..]);
      if s[0] == '.' {
        assert Encode(s) == "___" + e;
        assert ("___" + e)[3..] == e;
      } else {
        var x := [s[0]] + e;
        assert Encode(s) == x;
        assert x[1..] == e;
        if s[0] == '_' && |s| >= 2 {
          // the encoded tail does not begin with "__"
          EncodeHead(s[1..]);
          assert s[0] == '_' ==> s[1] != '.';
          assert x[1] == s[1];
          if s[1] == '_' && |s| >= 3 {
            assert !(s[0] == '_' && s[1] == '_' && s[2] == '_');
            assert !(s[1] == '_' && s[2] == '.');
            EncodeHead(s[2..]);
            assert e == [s[1]] + Encode(s[2..]);
            assert x[2] == s[2];
          }
        }
      }
    }
  }

  /** The round trip fails for a string holding "_.": `a_.b` comes back as `a._b`. */
  lemma DecodeEncodeCounterexample()
    ensures Encode("a_.b") == "a____b"
    ensures Decode(Encode("a_.b")) == "a._b"
  {
    assert "a_.b"[1..] == "_.b" && "_.b"[1..] == ".b" && ".b"[1..] == "b" && "b"[1..] == [];
    assert Encode("b") == "b";
    assert Encode(".b") == "___b";
    assert Encode("_.b") == "____b";
    assert "a____b"[1..] == "____b" && "____b"[3..] == "_b" && "_b"[1..] == "b";
    assert Decode("b") == "b";
    assert Decode("_b") == "_b";
    assert Decode("____b") == "._b";
  }

  /** Encoding is one-to-one on a set of keys; without this, re-keying a dict drops entries. */
  predicate EncodeInjective(keys: set<string>) {
    forall a, b :: a in keys && b in keys && Encode(a) == Encode(b) ==> a == b
  }

  lemma TranscodableInjective(keys: set<string>)
    requires forall k :: k in keys ==> Transcodable(k)
    ensures EncodeInjective(keys)
  {
    forall a, b | a in keys && b in keys && Encode(a) == Encode(b) ensures a == b {
      DecodeEncode(a);
      DecodeEncode(b);
    }
  }

  lemma DotFreeInjective(keys: set<string>)
    requires forall k :: k in keys ==> '.' !in k
    ensures EncodeInjective(keys)
  {
    forall k | k in keys ensures Encode(k) == k { EncodeDotFree(k); }
  }

  // ---------------------------------------------------------------------
  // Dictionary re-keying
  // ---------------------------------------------------------------------

  /** The encoded form of a key set: the keys of every map the rendering loop passes around. */
  function EncodedKeys(keys: set<string>): set<string> {
    set k | k in keys :: Encode(k)
  }

  /** `_modified_dict_keys(m, _dots_to_triple_under)`. */
  function EncodeKeys(m: map<string, string>): (r: map<string, string>)
    requires EncodeInjective(m.Keys)
    ensures forall k :: k in m ==> Encode(k) in r && r[Encode(k)] == m[k]
    ensures r.Keys == EncodedKeys(m.Keys)
  {
    map k | k in m :: Encode(k) := m[k]
  }

  /** `_modified_dict_keys_and_values(m, _dots_to_triple_under)`. */
  function EncodeKeysAndValues(m: map<string, string>): (r: map<string, string>)
    requires EncodeInjective(m.Keys)
    ensures forall k :: k in m ==> Encode(k) in r && r[Encode(k)] == Encode(m[k])
  {
    map k | k in m :: Encode(k) := Encode(m[k])
  }

  /**
   * `_modified_dict_keys_and_values(m, _triple_under_to_dots)` on a map whose
   * keys encode `keys`: every entry `e := v` becomes `Decode(e) := Decode(v)`.
   * The decoding takes the keys of `m` back to `keys` one to one, so the
   * result is written over `keys`.
   */
  function DecodeKeysAndValues(m: map<string, string>, keys: set<string>): (r: map<string, string>)
    requires forall k :: k in keys ==> Transcodable(k)
    requires m.Keys == EncodedKeys(keys)
    ensures r.Keys == keys
    ensures forall k :: k in keys ==> r[k] == Decode(m[Encode(k)])
    ensures forall e :: e in m ==> Decode(e) in r && r[Decode(e)] == Decode(m[e])
  {
    assert forall e :: e in m ==> Decode(e) in keys && Encode(Decode(e)) == e by {
      forall e | e in m ensures Decode(e) in keys && Encode(Decode(e)) == e {
        var k :| k in keys && Encode(k) == e;
        DecodeEncode(k);
      }
    }
    map k | k in keys :: Decode(m[Encode(k)])
  }

  /**
   * The map the renderer holds: no key has a '.', so none reads as an
   * attribute path, and no two keys of `m` merge, so no value is lost.
   */
  lemma {:induction false} EncodeKeysForEngine(m: map<string, string>)
    requires EncodeInjective(m.Keys)
    ensures forall e :: e in EncodeKeys(m) ==> '.' !in e
    ensures |EncodeKeys(m).Keys| == |m.Keys|
  {
    forall e | e in EncodeKeys(m) ensures '.' !in e {
      var k :| k in m && Encode(k) == e;
      EncodeRemovesDots(k);
    }
    EncodedKeysCard(m.Keys);
  }

  /** Encoding a key set it is one-to-one on keeps its size. */
  lemma {:induction false} EncodedKeysCard(keys: set<string>)
    requires EncodeInjective(keys)
    ensures |EncodedKeys(keys)| == |keys|
    decreases |keys|
  {
    if keys != {} {
      var k :| k in keys;
      var rest := keys - {k};
      EncodedKeysCard(rest);
      assert EncodedKeys(keys) == EncodedKeys(rest) + {Encode(k)};
      assert Encode(k) !in EncodedKeys(rest);
    }
  }

  /**
   * Re-keying keys and values by the decoding undoes re-keying them by the
   * encoding, for keys and values that round-trip.
   */
  lemma KeysAndValuesRoundTrip(m: map<string, string>)
    requires forall k :: k in m ==> Transcodable(k) && Transcodable(m[k])
    ensures EncodeInjective(m.Keys) && EncodeKeysAndValues(m).Keys == EncodedKeys(m.Keys)
      && DecodeKeysAndValues(EncodeKeysAndValues(m), m.Keys).Keys == m.Keys
      && forall k :: k in m ==> DecodeKeysAndValues(EncodeKeysAndValues(m), m.Keys)[k] == m[k]
  {
    TranscodableInjective(m.Keys);
    EncodeKeysAndValuesKeys(m);
    forall k | k in m ensures DecodeKeysAndValues(EncodeKeysAndValues(m), m.Keys)[k] == m[k] {
      RoundTripAt(m, k);
    }
  }

  /** The round trip at one key. */
  lemma RoundTripAt(m: map<string, string>, k: string)
    requires TranscodableKeys(m) && k in m && Transcodable(m[k])
    ensures EncodeInjective(m.Keys) && EncodeKeysAndValues(m).Keys == EncodedKeys(m.Keys)
      && DecodeKeysAndValues(EncodeKeysAndValues(m), m.Keys)[k] == m[k]
  {
    TranscodableInjective(m.Keys);
    EncodeKeysAndValuesKeys(m);
    DecodeEncode(m[k]);
  }

  lemma EncodeKeysAndValuesKeys(m: map<string, string>)
    requires EncodeInjective(m.Keys)
    ensures EncodeKeysAndValues(m).Keys == EncodedKeys(m.Keys)
  {
  }

  // ---------------------------------------------------------------------
  // Variable-tag substitution (the part of mustache the supervisor uses)
  // ---------------------------------------------------------------------

  /** The index of the first "}}" in `t`. */
  function FindClose(t: string): (r: Option<nat>)
    ensures r.Some? ==> r.value + 2 <= |t| && t[r.value] == '}' && t[r.value + 1] == '}'
    ensures r.Some? ==> forall i :: 0 <= i < r.value ==> !(t[i] == '}' && t[i + 1] == '}')
    ensures r.None? ==> forall i :: 0 <= i < |t| - 1 ==> !(t[i] == '}' && t[i + 1] == '}')
  {
    if |t| < 2 then None
    else if t[0] == '}' && t[1] == '}' then Some(0)
    else match FindClose(t[1..])
      case None => None
      case Some(j) => Some(j + 1)
  }

  predicate OpensTag(s: string) {
    |s| >= 2 && s[0] == '{' && s[1] == '{'
  }

  /**
   * Strict variable-tag rendering with identity escaping: `{{name}}` becomes
   * `vm[name]` verbatim; a name absent from `vm` is an error; a "{{" with no
   * closing "}}" after it is kept as text.
   */
  function Substitute(s: string, vm: map<string, string>): (r: Result<string, TemplateError>)
    decreases |s|
  {
    if OpensTag(s) then
      match FindClose(s[2..])
      case None => Ok(s)
      case Some(j) =>
        var name := s[2..2 + j];
        if name in vm then
          var rest :- Substitute(s[4 + j..], vm);
          Ok(vm[name] + rest)
        else Err(KeyNotFound)
    else if s == [] then Ok([])
    else
      var rest :- Substitute(s[1..], vm);
      Ok([s[0]] + rest)
  }

  /** The names of the placeholders of `s`, in order. */
  function Tags(s: string): seq<string>
    decreases |s|
  {
    if OpensTag(s) then
      match FindClose(s[2..])
      case None => []
      case Some(j) => [s[2..2 + j]] + Tags(s[4 + j..])
    else if s == [] then []
    else Tags(s[1..])
  }

  predicate AllKnown(names: seq<string>, vm: map<string, string>) {
    forall i :: 0 <= i < |names| ==> names[i] in vm
  }

  lemma AllKnownCons(n: string, names: seq<string>, vm: map<string, string>)
    ensures AllKnown([n] + names, vm) <==> n in vm && AllKnown(names, vm)
  {
    var t := [n] + names;
    if n in vm && AllKnown(names, vm) {
      forall i | 0 <= i < |t| ensures t[i] in vm {
        if i > 0 { assert t[i] == names[i - 1]; }
      }
    }
    if AllKnown(t, vm) {
      assert t[0] in vm;
      forall i | 0 <= i < |names| ensures names[i] in vm {
        assert names[i] == t[i + 1];
      }
    }
  }

  /** Rendering succeeds exactly when every placeholder names a key of the map. */
  lemma {:induction false} SubstituteOkIff(s: string, vm: map<string, string>)
    ensures Substitute(s, vm).Ok? <==> AllKnown(Tags(s), vm)
    decreases |s|
  {
    if OpensTag(s) {
      match FindClose(s[2..])
      case None =>
      case Some(j) =>
        var name, rest := s[2..2 + j], s[4 + j..];
        assert Tags(s) == [name] + Tags(rest);
        SubstituteOkIff(rest, vm);
        AllKnownCons(name, Tags(rest), vm);
    } else if s != [] {
      assert Tags(s) == Tags(s[1..]);
      SubstituteOkIff(s[1..], vm);
    }
  }

  /** A first character other than '{' is copied, in front of whatever the tail renders to. */
  lemma SubstituteCons(c: char, t: string, vm: map<string, string>)
    requires c != '{'
    ensures Substitute(t, vm).Ok? ==> Substitute([c] + t, vm) == Ok([c] + Substitute(t, vm).value)
    ensures Substitute(t, vm).Err? ==> Substitute([c] + t, vm) == Substitute(t, vm)
  {
    var s := [c] + t;
    assert s[0] == c && s[1..] == t;
  }

  /** Text without '{' passes through unchanged, in front of whatever its tail renders to. */
  lemma {:induction false} SubstituteLiteralPrefix(lit: string, rest: string, vm: map<string, string>)
    requires '{' !in lit
    ensures Substitute(rest, vm).Ok? ==> Substitute(lit + rest, vm) == Ok(lit + Substitute(rest, vm).value)
    ensures Substitute(rest, vm).Err? ==> Substitute(lit + rest, vm) == Substitute(rest, vm)
    decreases |lit|
  {
    if lit == [] {
      assert lit + rest == rest;
      if Substitute(rest, vm).Ok? {
        assert lit + Substitute(rest, vm).value == Substitute(rest, vm).value;
      }
    } else {
      var t := lit[1..] + rest;
      assert lit + rest == [lit[0]] + t;
      SubstituteCons(lit[0], t, vm);
      SubstituteLiteralPrefix(lit[1..], rest, vm);
      if Substitute(rest, vm).Ok? {
        assert [lit[0]] + (lit[1..] + Substitute(rest, vm).value) == lit + Substitute(rest, vm).value;
      }
    }
  }

  /** A string that starts with a placeholder: its value, then the rendering of what follows. */
  lemma SubstituteAtTag(name: string, rest: string, vm: map<string, string>)
    requires '}' !in name
    ensures name in vm && Substitute(rest, vm).Ok? ==>
      Substitute("{{" + name + "}}" + rest, vm) == Ok(vm[name] + Substitute(rest, vm).value)
    ensures name in vm && Substitute(rest, vm).Err? ==>
      Substitute("{{" + name + "}}" + rest, vm) == Substitute(rest, vm)
    ensures name !in vm ==> Substitute("{{" + name + "}}" + rest, vm) == Err(KeyNotFound)
  {
    var tag := "{{" + name + "}}" + rest;
    assert OpensTag(tag);
    assert tag[2..] == name + "}}" + rest;
    FindCloseAfter(name, rest);
    assert tag[2..2 + |name|] == name;
    assert tag[4 + |name|..] == rest;
  }

  /** One placeholder whose name holds no '}' is replaced by the value, inserted verbatim. */
  lemma SubstituteTag(lit: string, name: string, rest: string, vm: map<string, string>)
    requires '{' !in lit && '}' !in name
    ensures name in vm && Substitute(rest, vm).Ok? ==>
      Substitute(lit + "{{" + name + "}}" + rest, vm) == Ok(lit + vm[name] + Substitute(rest, vm).value)
    ensures name !in vm ==> Substitute(lit + "{{" + name + "}}" + rest, vm) == Err(KeyNotFound)
  {
    var tag := "{{" + name + "}}" + rest;
    TagAfterLiteral(lit, name, rest);
    SubstituteLiteralPrefix(lit, tag, vm);
    SubstituteAtTag(name, rest, vm);
    if name in vm && Substitute(rest, vm).Ok? {
      assert lit + (vm[name] + Substitute(rest, vm).value) == lit + vm[name] + Substitute(rest, vm).value;
    }
  }

  lemma TagAfterLiteral(lit: string, name: string, rest: string)
    ensures lit + "{{" + name + "}}" + rest == lit + ("{{" + name + "}}" + rest)
  {
  }

  lemma FindCloseAfter(name: string, rest: string)
    requires '}' !in name
    ensures FindClose(name + "}}" + rest) == Some(|name|)
  {
    var t := name + "}}" + rest;
    var r := FindClose(t);
    assert t[|name|] == '}' && t[|name| + 1] == '}';
    assert forall i :: 0 <= i < |name| ==> t[i] == name[i] && t[i] != '}';
    if r.None? {
      assert false;
    }
  }

  // ---------------------------------------------------------------------
  // Renderer
  // ---------------------------------------------------------------------

  /** A renderer holds the value map with its keys already encoded. */
  datatype Renderer = Renderer(valueMap: map<string, string>) {

    /** `Renderer.render`: encode the element, substitute, decode the result. */
    function Render(element: string): Result<string, TemplateError> {
      var rendered :- Substitute(Encode(element), valueMap);
      Ok(Decode(rendered))
    }
  }

  /** `Renderer(value_map)`. */
  function NewRenderer(m: map<string, string>): (r: Renderer)
    requires EncodeInjective(m.Keys)
    ensures r.valueMap == EncodeKeys(m)
  {
    Renderer(EncodeKeys(m))
  }

  /** `{{k}}` renders to the (decoded) value of `k`: the value goes in without escaping. */
  lemma RenderPlaceholder(m: map<string, string>, k: string)
    requires EncodeInjective(m.Keys) && k in m && '}' !in k && '{' !in k
    ensures NewRenderer(m).Render("{{" + k + "}}") == Ok(Decode(m[k]))
    ensures !HasTriple(m[k]) ==> NewRenderer(m).Render("{{" + k + "}}") == Ok(m[k])
  {
    var vm, ek := EncodeKeys(m), Encode(k);
    EncodeTag(k);
    EncodeKeepsBraces(k);
    SubstituteAtTag(ek, [], vm);
    assert "{{" + ek + "}}" + [] == "{{" + ek + "}}";
    assert Substitute([], vm) == Ok([]);
    assert ek in vm && vm[ek] + [] == m[k];
    assert Substitute(Encode("{{" + k + "}}"), vm) == Ok(m[k]);
    if !HasTriple(m[k]) { DecodeWithoutTriple(m[k]); }
  }

  /** A placeholder naming a key absent from the map is an error, never a blank. */
  lemma RenderMissingKey(m: map<string, string>, k: string)
    requires forall j :: j in m ==> Transcodable(j)
    requires EncodeInjective(m.Keys)
    requires Transcodable(k) && k !in m && '}' !in k && '{' !in k
    ensures NewRenderer(m).Render("{{" + k + "}}") == Err(KeyNotFound)
  {
    var vm, ek := EncodeKeys(m), Encode(k);
    EncodeTag(k);
    EncodeKeepsBraces(k);
    assert ek !in vm by {
      if ek in vm {
        var j :| j in m && Encode(j) == ek;
        DecodeEncode(j);
        DecodeEncode(k);
      }
    }
    SubstituteAtTag(ek, [], vm);
    assert "{{" + ek + "}}" + [] == "{{" + ek + "}}";
    assert Substitute(Encode("{{" + k + "}}"), vm) == Err(KeyNotFound);
  }

  lemma {:induction false} EncodeKeepsBraces(s: string)
    ensures ('}' in Encode(s)) == ('}' in s)
    ensures ('{' in Encode(s)) == ('{' in s)
  {
    if s != [] {
      EncodeKeepsBraces(s[1..]);
      var h := if s[0] == '.' then "___" else [s[0]];
      assert Encode(s) == h + Encode(s[1..]);
      assert s == [s[0]] + s[1..];
    }
  }

  lemma {:induction false} EncodeConcat(a: string, b: string)
    ensures Encode(a + b) == Encode(a) + Encode(b)
  {
    if a != [] {
      assert (a + b)[1..] == a[1..] + b;
      EncodeConcat(a[1..], b);
    } else {
      assert a + b == b;
    }
  }

  lemma EncodeTag(k: string)
    ensures Encode("{{" + k + "}}") == "{{" + Encode(k) + "}}"
  {
    EncodeConcat("{{", k + "}}");
    EncodeConcat(k, "}}");
    assert "{{" + k + "}}" == "{{" + (k + "}}");
    assert Encode("{{") == "{{";
    assert Encode("}}") == "}}";
  }

  // ---------------------------------------------------------------------
  // Fixed-point rendering of a value map
  // ---------------------------------------------------------------------

  predicate DotFreeKeys(m: map<string, string>) {
    forall k :: k in m ==> '.' !in k
  }

  /** Re-encoding keys that hold no '.' changes nothing. */
  lemma DotFreeRenderer(m: map<string, string>)
    requires DotFreeKeys(m)
    ensures EncodeInjective(m.Keys) && NewRenderer(m) == Renderer(m)
  {
    DotFreeInjective(m.Keys);
    var e := EncodeKeys(m);
    forall k | k in m ensures Encode(k) == k { EncodeDotFree(k); }
    assert e.Keys == m.Keys;
  }

  /**
   * One pass: every value of `prev` rendered against `prev` alone (never
   * against the map being built), or the error of a value that fails. The
   * maps passed between passes have dot-free keys, so `Renderer(prev)` is
   * what `NewRenderer(prev)` builds (DotFreeRenderer).
   */
  function Pass(prev: map<string, string>): (r: Result<map<string, string>, TemplateError>)
    ensures r.Ok? ==> r.value.Keys == prev.Keys
    ensures r.Err? ==> r.error == KeyNotFound
  {
    var rend := Renderer(prev);
    if forall k :: k in prev ==> rend.Render(prev[k]).Ok? then
      Ok(map k | k in prev :: rend.Render(prev[k]).value)
    else Err(KeyNotFound)
  }

  type Step = map<string, string> -> Result<map<string, string>, TemplateError>

  /**
   * Up to `budget` applications of `step` starting from `prev`; the first
   * one that returns its own input ends the loop with that map.
   */
  function Iterate(step: Step, prev: map<string, string>, budget: nat): (r: Result<map<string, string>, TemplateError>)
    ensures budget == 0 ==> r == Err(NotConverged)
    decreases budget
  {
    if budget == 0 then Err(NotConverged)
    else match step(prev)
      case Err(e) => Err(e)
      case Ok(next) => if next == prev then Ok(next) else Iterate(step, next, budget - 1)
  }

  predicate TranscodableKeys(m: map<string, string>) {
    forall k :: k in m ==> Transcodable(k)
  }

  lemma EncodedStartKeys(m: map<string, string>)
    requires TranscodableKeys(m)
    ensures EncodeInjective(m.Keys)
    ensures EncodeInjective(m.Keys) && EncodeKeysAndValues(m).Keys == EncodedKeys(m.Keys)
    ensures EncodeInjective(m.Keys) && DotFreeKeys(EncodeKeysAndValues(m))
  {
    TranscodableInjective(m.Keys);
    forall k | k in m ensures '.' !in Encode(k) { EncodeRemovesDots(k); }
  }

  /** `render_values_in_template_map` as a function of its inputs. */
  function RenderValues(m: map<string, string>, maxRuns: nat): (r: Result<map<string, string>, TemplateError>)
    requires TranscodableKeys(m)
  {
    EncodedStartKeys(m);
    var start := EncodeKeysAndValues(m);
    var f :- Iterate(Pass, start, maxRuns);
    IterateKeys(start, maxRuns);
    Ok(DecodeKeysAndValues(f, m.Keys))
  }

  /** A pass succeeds with `m` when every value renders to its entry in `m`. */
  lemma PassOk(prev: map<string, string>, m: map<string, string>)
    requires m.Keys == prev.Keys
    requires forall k :: k in prev ==> Renderer(prev).Render(prev[k]) == Ok(m[k])
    ensures Pass(prev) == Ok(m)
  {
    var rend := Renderer(prev);
    assert forall k :: k in prev ==> rend.Render(prev[k]).Ok?;
    assert (map k | k in prev :: rend.Render(prev[k]).value) == m;
  }

  /** A pass fails when one value fails to render. */
  lemma PassErr(prev: map<string, string>, k: string)
    requires k in prev && Renderer(prev).Render(prev[k]).Err?
    ensures Pass(prev) == Err(KeyNotFound)
  {
  }

  /** `Renderer(previous_run)`: on dot-free keys the re-keying leaves the map as it is. */
  method BuildRenderer(m: map<string, string>) returns (r: Renderer)
    requires DotFreeKeys(m)
    ensures r == Renderer(m)
  {
    DotFreeRenderer(m);
    r := NewRenderer(m);
  }

  /** The inner loop of one pass: render each value against the previous pass's map. */
  method RenderPass(previousRun: map<string, string>) returns (r: Result<map<string, string>, TemplateError>)
    requires DotFreeKeys(previousRun)
    ensures r == Pass(previousRun)
  {
    var renderer := BuildRenderer(previousRun);
    var thisRun: map<string, string> := map[];
    var pending := previousRun.Keys;
    while pending != {}
      invariant pending <= previousRun.Keys
      invariant thisRun.Keys == previousRun.Keys - pending
      invariant forall k :: k in thisRun ==> renderer.Render(previousRun[k]) == Ok(thisRun[k])
      decreases pending
    {
      var key :| key in pending;
      var rendered := renderer.Render(previousRun[key]);
      if rendered.Err? {
        PassErr(previousRun, key);
        return Err(KeyNotFound);
      }
      thisRun := thisRun[key := rendered.value];
      pending := pending - {key};
    }
    PassOk(previousRun, thisRun);
    return Ok(thisRun);
  }

  /**
   * `render_values_in_template_map`. Each pass fills a fresh map from the
   * previous pass's map only; a pass equal to its input ends the loop, and
   * running out of passes is an error.
   */
  method RenderValuesInTemplateMap(valueMap: map<string, string>, maxRuns: nat)
    returns (r: Result<map<string, string>, TemplateError>)
    requires TranscodableKeys(valueMap)
    ensures r == RenderValues(valueMap, maxRuns)
  {
    EncodedStartKeys(valueMap);
    ghost var start := EncodeKeysAndValues(valueMap);
    var previousRun := EncodeKeysAndValues(valueMap);
    IterateKeys(start, maxRuns);
    for run := 0 to maxRuns
      invariant previousRun.Keys == start.Keys
      invariant DotFreeKeys(previousRun)
      invariant Iterate(Pass, previousRun, maxRuns - run) == Iterate(Pass, start, maxRuns)
    {
      var thisRun :- RenderPass(previousRun);
      if thisRun == previousRun {
        return Ok(DecodeKeysAndValues(thisRun, valueMap.Keys));
      }
      previousRun := thisRun;
    }
    return Err(NotConverged);
  }

  // ---------------------------------------------------------------------
  // Properties of the fixed-point loop
  // ---------------------------------------------------------------------

  /** Passes keep the key set, so every map of the loop has the start's keys. */
  lemma IterateKeys(prev: map<string, string>, budget: nat)
    ensures Iterate(Pass, prev, budget).Ok? ==> Iterate(Pass, prev, budget).value.Keys == prev.Keys
  {
    forall m: map<string, string> ensures Pass(m).Ok? ==> Pass(m).value.Keys == m.Keys {
    }
    IterateKeepsKeys(Pass, prev, budget);
  }

  /** A step that keeps key sets makes a loop that keeps them. */
  lemma {:induction false} IterateKeepsKeys(step: Step, prev: map<string, string>, budget: nat)
    requires forall m: map<string, string> :: step(m).Ok? ==> step(m).value.Keys == m.Keys
    ensures Iterate(step, prev, budget).Ok? ==> Iterate(step, prev, budget).value.Keys == prev.Keys
    decreases budget
  {
    if budget > 0 {
      match step(prev)
      case Err(_) =>
      case Ok(next) =>
        if next != prev { IterateKeepsKeys(step, next, budget - 1); }
    }
  }

  /** With no passes allowed the loop always fails. */
  lemma ZeroRunsFail(m: map<string, string>)
    requires TranscodableKeys(m)
    ensures RenderValues(m, 0) == Err(NotConverged)
  {
  }

  /** A successful loop ends on a map that the step leaves unchanged. */
  lemma {:induction false} IterateStable(step: Step, prev: map<string, string>, budget: nat)
    ensures Iterate(step, prev, budget).Ok? ==> step(Iterate(step, prev, budget).value) == Iterate(step, prev, budget)
    decreases budget
  {
    if budget > 0 {
      match step(prev)
      case Err(_) =>
      case Ok(next) =>
        if next != prev { IterateStable(step, next, budget - 1); }
    }
  }

  /** A larger budget does not change a successful loop. */
  lemma {:induction false} IterateMoreBudget(step: Step, prev: map<string, string>, budget: nat)
    ensures Iterate(step, prev, budget).Ok? ==> Iterate(step, prev, budget + 1) == Iterate(step, prev, budget)
    decreases budget
  {
    if budget > 0 {
      match step(prev)
      case Err(_) =>
      case Ok(next) =>
        if next != prev { IterateMoreBudget(step, next, budget - 1); }
    }
  }

  /**
   * A successful result keeps the input's keys, and it is the decoding of a
   * map that one more pass leaves unchanged.
   */
  lemma RenderValuesFixpoint(m: map<string, string>, maxRuns: nat)
    requires TranscodableKeys(m)
    ensures RenderValues(m, maxRuns).Ok? ==> RenderValues(m, maxRuns).value.Keys == m.Keys
    ensures RenderValues(m, maxRuns).Ok? ==>
      exists f: map<string, string> :: f.Keys == EncodedKeys(m.Keys) && Pass(f) == Ok(f)
              && RenderValues(m, maxRuns).value == DecodeKeysAndValues(f, m.Keys)
  {
    EncodedStartKeys(m);
    var start := EncodeKeysAndValues(m);
    var r := Iterate(Pass, start, maxRuns);
    if r.Ok? {
      IterateStable(Pass, start, maxRuns);
      IterateKeys(start, maxRuns);
      assert Pass(r.value) == Ok(r.value);
    }
  }

  /** A larger pass budget does not change a successful result. */
  lemma RenderValuesMoreRuns(m: map<string, string>, maxRuns: nat)
    requires TranscodableKeys(m)
    ensures RenderValues(m, maxRuns).Ok? ==> RenderValues(m, maxRuns + 1) == RenderValues(m, maxRuns)
  {
    EncodedStartKeys(m);
    IterateMoreBudget(Pass, EncodeKeysAndValues(m), maxRuns);
  }
}
