module TemplateExamples {
  import opened Common
  import opened Template

  lemma NoUnderscore(s: string)
    requires '_' !in s
    ensures !HasTriple(s)
  {
  }

  /** `{{k}}` against a map holding `k` renders to `vm[k]`. */
  lemma RenderBareTag(vm: map<string, string>, k: string)
    requires '.' !in k && '{' !in k && '}' !in k && k in vm && !HasTriple(vm[k])
    ensures Renderer(vm).Render(Tag(k)) == Ok(vm[k])
  {
    EncodeTag(k);
    EncodeDotFree(k);
    SubstituteTag([], k, [], vm);
    assert [] + "{{" + k + "}}" + [] == "{{" + k + "}}";
    assert Substitute([], vm) == Ok([]);
    assert [] + vm[k] + [] == vm[k];
    DecodeWithoutTriple(vm[k]);
  }

  predicate PlainKey(k: string) {
    '.' !in k && '_' !in k && '{' !in k && '}' !in k
  }

  predicate SelfTagged(m: map<string, string>) {
    forall k :: k in m ==> m[k] == Tag(k)
  }

  lemma SelfTaggedPass(m: map<string, string>)
    requires SelfTagged(m) && forall k :: k in m ==> PlainKey(k)
    ensures Pass(m) == Ok(m)
  {
    forall k | k in m ensures Renderer(m).Render(m[k]) == Ok(m[k]) {
      NoUnderscore(m[k]);
      RenderBareTag(m, k);
    }
    PassOk(m, m);
  }

  /** Re-keying changes nothing on a map that holds no '.'. */
  lemma EncodeDotFreeMap(m: map<string, string>)
    requires forall k :: k in m ==> '.' !in k && '.' !in m[k]
    ensures EncodeInjective(m.Keys) && EncodeKeysAndValues(m) == m
  {
    forall k | k in m ensures Encode(k) == k && Encode(m[k]) == m[k] {
      EncodeDotFree(k);
      EncodeDotFree(m[k]);
    }
    DotFreeInjective(m.Keys);
    assert EncodedKeys(m.Keys) == m.Keys;
  }

  /**
   * A map of self-references (`a = {{a}}`) is not reported as a cycle: the
   * loop starts on the map itself and stops after its first pass.
   */
  lemma SelfTaggedStable(m: map<string, string>)
    requires SelfTagged(m) && forall k :: k in m ==> PlainKey(k)
    ensures TranscodableKeys(m) && EncodeInjective(m.Keys) && EncodeKeysAndValues(m) == m
    ensures Iterate(Pass, m, 1) == Ok(m)
  {
    PlainKeysTranscodable(m);
    EncodeDotFreeMap(m);
    SelfTaggedPass(m);
  }

  lemma PlainKeysTranscodable(m: map<string, string>)
    requires forall k :: k in m ==> PlainKey(k)
    ensures TranscodableKeys(m)
  {
    forall k | k in m ensures Transcodable(k) { NoUnderscore(k); }
  }

  function Tag(k: string): string {
    "{{" + k + "}}"
  }

  /** The first pass of the two-cycle swaps each reference for a self-reference. */
  lemma TwoCycleFirstPass(a: string, b: string)
    requires PlainKey(a) && PlainKey(b) && a != b
    ensures Pass(map[a := Tag(b), b := Tag(a)]) == Ok(map[a := Tag(a), b := Tag(b)])
  {
    var c := map[a := Tag(b), b := Tag(a)];
    var s := map[a := Tag(a), b := Tag(b)];
    NoUnderscore(Tag(a));
    NoUnderscore(Tag(b));
    RenderBareTag(c, a);
    RenderBareTag(c, b);
    PassOk(c, s);
  }

  /** A step that maps `c` to a different fixed point `s` needs exactly two passes. */
  lemma IterateSettlesInTwo(step: Step, c: map<string, string>, s: map<string, string>)
    requires step(c) == Ok(s) && step(s) == Ok(s) && c != s
    ensures Iterate(step, c, 1) == Err(NotConverged)
    ensures Iterate(step, c, 2) == Ok(s)
  {
  }

  /** `a = {{b}}`, `b = {{a}}` settles after two passes on `a = {{a}}`, `b = {{b}}`. */
  lemma TwoCycle(a: string, b: string)
    requires PlainKey(a) && PlainKey(b) && a != b
    ensures Iterate(Pass, map[a := Tag(b), b := Tag(a)], 1) == Err(NotConverged)
    ensures Iterate(Pass, map[a := Tag(b), b := Tag(a)], 2) == Ok(map[a := Tag(a), b := Tag(b)])
  {
    var c := map[a := Tag(b), b := Tag(a)];
    var s := map[a := Tag(a), b := Tag(b)];
    TwoCycleFirstPass(a, b);
    SelfTaggedPass(s);
    assert c != s by {
      assert Tag(b)[2..|b| + 2] == b;
      assert Tag(a)[2..|a| + 2] == a;
      assert c[a] != s[a];
    }
    IterateSettlesInTwo(Pass, c, s);
  }

  predicate Plain(s: string) {
    '.' !in s && '_' !in s && '{' !in s
  }

  lemma EncodeTextThenTag(lit: string, k: string)
    requires Plain(lit) && PlainKey(k)
    ensures Encode(lit + Tag(k)) == lit + Tag(k)
  {
    EncodeConcat(lit, Tag(k));
    EncodeDotFree(lit);
    EncodeTag(k);
    EncodeDotFree(k);
  }

  lemma SubstituteTextThenTag(vm: map<string, string>, lit: string, k: string)
    requires Plain(lit) && PlainKey(k) && k in vm
    ensures Substitute(lit + Tag(k), vm) == Ok(lit + vm[k])
  {
    SubstituteTag(lit, k, [], vm);
    assert lit + "{{" + k + "}}" + [] == lit + Tag(k);
    assert Substitute([], vm) == Ok([]);
    assert lit + vm[k] + [] == lit + vm[k];
  }

  /** Plain text followed by one placeholder renders to the text and the value. */
  lemma RenderTextThenTag(vm: map<string, string>, lit: string, k: string)
    requires Plain(lit) && PlainKey(k) && k in vm && '_' !in vm[k]
    ensures Renderer(vm).Render(lit + Tag(k)) == Ok(lit + vm[k])
  {
    EncodeTextThenTag(lit, k);
    SubstituteTextThenTag(vm, lit, k);
    NoUnderscore(lit + vm[k]);
    DecodeWithoutTriple(lit + vm[k]);
  }

  /** `a = q{{a}}` grows to `a = qq{{a}}` in one pass. */
  lemma GrowingPass(a: string, q: string)
    requires PlainKey(a) && Plain(q)
    ensures Pass(map[a := q + Tag(a)]) == Ok(map[a := q + q + Tag(a)])
  {
    var m := map[a := q + Tag(a)];
    RenderTextThenTag(m, q, a);
    assert q + (q + Tag(a)) == q + q + Tag(a);
    PassOk(m, map[a := q + q + Tag(a)]);
  }

  /** A value that refers to itself after some text never converges, whatever the budget. */
  lemma {:induction false} GrowingNeverConverges(a: string, q: string, budget: nat)
    requires PlainKey(a) && Plain(q) && q != []
    ensures Iterate(Pass, map[a := q + Tag(a)], budget) == Err(NotConverged)
    decreases budget
  {
    if budget > 0 {
      GrowingPass(a, q);
      var m := map[a := q + Tag(a)];
      var n := map[a := q + q + Tag(a)];
      assert m != n by { assert |m[a]| < |n[a]|; }
      assert q + q + Tag(a) == (q + q) + Tag(a);
      GrowingNeverConverges(a, q + q, budget - 1);
    }
  }

  /** Plain text renders to itself. */
  lemma RenderPlain(vm: map<string, string>, lit: string)
    requires Plain(lit)
    ensures Renderer(vm).Render(lit) == Ok(lit)
  {
    EncodeDotFree(lit);
    SubstituteLiteralPrefix(lit, [], vm);
    assert lit + [] == lit;
    assert Substitute([], vm) == Ok([]);
    NoUnderscore(lit);
    DecodeWithoutTriple(lit);
  }

  /** A map of plain values is a fixed point of a pass. */
  lemma PlainPass(m: map<string, string>)
    requires forall k :: k in m ==> Plain(m[k])
    ensures Pass(m) == Ok(m)
  {
    forall k | k in m ensures Renderer(m).Render(m[k]) == Ok(m[k]) { RenderPlain(m, m[k]); }
    PassOk(m, m);
  }

  /** The three maps of a chain `a = r`, `b = s{{a}}`, `c = t{{b}}` as it resolves. */
  function Chain0(a: string, b: string, c: string, r: string, s: string, t: string): map<string, string> {
    map[a := r, b := s + Tag(a), c := t + Tag(b)]
  }

  function Chain1(a: string, b: string, c: string, r: string, s: string, t: string): map<string, string> {
    map[a := r, b := s + r, c := t + s + Tag(a)]
  }

  function Chain2(a: string, b: string, c: string, r: string, s: string, t: string): map<string, string> {
    map[a := r, b := s + r, c := t + s + r]
  }

  lemma ChainFirstPass(a: string, b: string, c: string, r: string, s: string, t: string)
    requires PlainKey(a) && PlainKey(b) && PlainKey(c) && a != b && b != c && a != c
    requires Plain(r) && Plain(s) && Plain(t)
    ensures Pass(Chain0(a, b, c, r, s, t)) == Ok(Chain1(a, b, c, r, s, t))
  {
    var m, n := Chain0(a, b, c, r, s, t), Chain1(a, b, c, r, s, t);
    assert m[a] == r && m[b] == s + Tag(a) && m[c] == t + Tag(b);
    RenderPlain(m, r);
    RenderTextThenTag(m, s, a);
    RenderTextThenTag(m, t, b);
    assert t + (s + Tag(a)) == t + s + Tag(a);
    forall k | k in m ensures Renderer(m).Render(m[k]) == Ok(n[k]) {
      if k == a {
      } else if k == b {
      } else {
        assert k == c;
      }
    }
    PassOk(m, n);
  }

  lemma ChainSecondPass(a: string, b: string, c: string, r: string, s: string, t: string)
    requires PlainKey(a) && PlainKey(b) && PlainKey(c) && a != b && b != c && a != c
    requires Plain(r) && Plain(s) && Plain(t)
    ensures Pass(Chain1(a, b, c, r, s, t)) == Ok(Chain2(a, b, c, r, s, t))
  {
    var m := Chain1(a, b, c, r, s, t);
    RenderPlain(m, r);
    RenderPlain(m, s + r);
    RenderTextThenTag(m, t + s, a);
    PassOk(m, Chain2(a, b, c, r, s, t));
  }

  /** A step that goes `m0`, `m1`, then a fixed point `m2`, needs exactly three passes. */
  lemma IterateSettlesInThree(step: Step, m0: map<string, string>, m1: map<string, string>, m2: map<string, string>)
    requires step(m0) == Ok(m1) && step(m1) == Ok(m2) && step(m2) == Ok(m2) && m0 != m1 && m1 != m2
    ensures Iterate(step, m0, 2) == Err(NotConverged)
    ensures Iterate(step, m0, 3) == Ok(m2)
  {
  }

  lemma ChainDistinct(a: string, b: string, c: string, r: string, s: string, t: string)
    requires PlainKey(a) && PlainKey(b) && PlainKey(c) && a != b && b != c && a != c
    requires Plain(r) && Plain(s) && Plain(t)
    ensures Chain0(a, b, c, r, s, t) != Chain1(a, b, c, r, s, t)
    ensures Chain1(a, b, c, r, s, t) != Chain2(a, b, c, r, s, t)
  {
    var m0, m1, m2 := Chain0(a, b, c, r, s, t), Chain1(a, b, c, r, s, t), Chain2(a, b, c, r, s, t);
    assert '{' in m0[b] && '{' !in m1[b];
    assert '{' in m1[c] && '{' !in m2[c];
  }

  /**
   * A chain of references two deep needs three passes: the third finds
   * nothing left to substitute, and two passes are not enough.
   */
  lemma ChainResolves(a: string, b: string, c: string, r: string, s: string, t: string)
    requires PlainKey(a) && PlainKey(b) && PlainKey(c) && a != b && b != c && a != c
    requires Plain(r) && Plain(s) && Plain(t)
    ensures Iterate(Pass, Chain0(a, b, c, r, s, t), 2) == Err(NotConverged)
    ensures Iterate(Pass, Chain0(a, b, c, r, s, t), 3) == Ok(Chain2(a, b, c, r, s, t))
  {
    ChainFirstPass(a, b, c, r, s, t);
    ChainSecondPass(a, b, c, r, s, t);
    PlainPass(Chain2(a, b, c, r, s, t));
    ChainDistinct(a, b, c, r, s, t);
    IterateSettlesInThree(Pass, Chain0(a, b, c, r, s, t), Chain1(a, b, c, r, s, t), Chain2(a, b, c, r, s, t));
  }

  // ---------------------------------------------------------------------
  // The docstring's example: dotted keys, text after each placeholder
  // ---------------------------------------------------------------------

  /** A property name as the properties files write them: dots allowed, no '_' and no braces. */
  predicate DottedKey(k: string) {
    '_' !in k && '{' !in k && '}' !in k
  }

  lemma DottedKeyTranscodable(k: string)
    requires DottedKey(k)
    ensures Transcodable(k)
  {
    NoUnderscore(k);
  }

  /** The encoded name holds no '.' and no brace, and decodes back. */
  lemma EncodedDottedKey(k: string)
    requires DottedKey(k)
    ensures '.' !in Encode(k) && '{' !in Encode(k) && '}' !in Encode(k)
  {
    EncodeRemovesDots(k);
    EncodeKeepsBraces(k);
  }

  /** Encoding a placeholder followed by plain text encodes only the name. */
  lemma EncodeTagThenText(k: string, x: string)
    requires Plain(x)
    ensures Encode(Tag(k) + x) == Tag(Encode(k)) + x
  {
    EncodeConcat(Tag(k), x);
    EncodeTag(k);
    EncodeDotFree(x);
  }

  /** Decoding gives the dotted placeholder back. */
  lemma DecodeTagThenText(k: string, x: string)
    requires DottedKey(k) && Plain(x)
    ensures Decode(Tag(Encode(k)) + x) == Tag(k) + x
  {
    NoUnderscore(Tag(k) + x);
    DecodeEncode(Tag(k) + x);
    EncodeTagThenText(k, x);
  }

  /** A placeholder followed by text without '{': the value, then the text. */
  lemma SubstituteTagThenText(vm: map<string, string>, name: string, x: string)
    requires '}' !in name && name in vm && '{' !in x
    ensures Substitute(Tag(name) + x, vm) == Ok(vm[name] + x)
  {
    SubstituteLiteralPrefix(x, [], vm);
    assert x + [] == x;
    assert Substitute([], vm) == Ok([]);
    SubstituteAtTag(name, x, vm);
  }

  /** An encoded placeholder followed by plain text renders to the value, decoded. */
  lemma RenderEncodedTag(vm: map<string, string>, name: string, x: string)
    requires '.' !in name && '{' !in name && '}' !in name && name in vm && Plain(x)
    ensures Renderer(vm).Render(Tag(name) + x) == Ok(Decode(vm[name] + x))
  {
    EncodeTagThenText(name, x);
    EncodeDotFree(name);
    SubstituteTagThenText(vm, name, x);
  }

  /**
   * The maps of the example as they resolve: `a = r`, `b = {{a}}s`,
   * `c = {{b}}t`, its keys and placeholders re-keyed to `ea`, `eb`, `ec`,
   * then after one pass and after two.
   */
  function Home0(a: string, b: string, c: string, r: string, s: string, t: string): map<string, string> {
    map[a := r, b := Tag(a) + s, c := Tag(b) + t]
  }

  function HomeStart(ea: string, eb: string, ec: string, r: string, s: string, t: string): map<string, string> {
    map[ea := r, eb := Tag(ea) + s, ec := Tag(eb) + t]
  }

  function Home1(ea: string, eb: string, ec: string, a: string, r: string, s: string, t: string): map<string, string> {
    map[ea := r, eb := r + s, ec := Tag(a) + s + t]
  }

  function Home2(ea: string, eb: string, ec: string, r: string, s: string, t: string): map<string, string> {
    map[ea := r, eb := r + s, ec := r + s + t]
  }

  /** Three encoded names, distinct, without '.' or braces. */
  predicate EncodedNames(ea: string, eb: string, ec: string) {
    && '.' !in ea && '{' !in ea && '}' !in ea
    && '.' !in eb && '{' !in eb && '}' !in eb
    && ea != eb && eb != ec && ea != ec
  }

  predicate PlainTexts(r: string, s: string, t: string) {
    Plain(r) && Plain(s) && Plain(t)
  }

  /** An encoded placeholder whose value is plain, then plain text. */
  lemma RenderTagToPlain(vm: map<string, string>, name: string, x: string)
    requires '.' !in name && '{' !in name && '}' !in name && name in vm && Plain(vm[name]) && Plain(x)
    ensures Renderer(vm).Render(Tag(name) + x) == Ok(vm[name] + x)
  {
    RenderEncodedTag(vm, name, x);
    NoUnderscore(vm[name] + x);
    DecodeWithoutTriple(vm[name] + x);
  }

  /** An encoded placeholder whose value holds the encoded placeholder of `a`: decoding restores the dots. */
  lemma RenderTagToDotted(vm: map<string, string>, name: string, x: string, a: string, y: string)
    requires '.' !in name && '{' !in name && '}' !in name && name in vm && Plain(x) && Plain(y)
    requires DottedKey(a) && vm[name] == Tag(Encode(a)) + y
    ensures Renderer(vm).Render(Tag(name) + x) == Ok(Tag(a) + y + x)
  {
    RenderEncodedTag(vm, name, x);
    assert vm[name] + x == Tag(Encode(a)) + (y + x);
    DecodeTagThenText(a, y + x);
    assert Tag(a) + (y + x) == Tag(a) + y + x;
  }

  /** A dotted placeholder is encoded before substitution, so it finds the encoded key. */
  lemma RenderDottedTag(vm: map<string, string>, a: string, x: string)
    requires DottedKey(a) && Encode(a) in vm && Plain(vm[Encode(a)]) && Plain(x)
    ensures Renderer(vm).Render(Tag(a) + x) == Ok(vm[Encode(a)] + x)
  {
    EncodeTagThenText(a, x);
    EncodedDottedKey(a);
    SubstituteTagThenText(vm, Encode(a), x);
    NoUnderscore(vm[Encode(a)] + x);
    DecodeWithoutTriple(vm[Encode(a)] + x);
  }

  /** A pass over three keys whose values each render. */
  lemma PassOfThree(ka: string, kb: string, kc: string, va: string, vb: string, vc: string, wa: string, wb: string, wc: string)
    requires ka != kb && kb != kc && ka != kc
    requires Renderer(map[ka := va, kb := vb, kc := vc]).Render(va) == Ok(wa)
    requires Renderer(map[ka := va, kb := vb, kc := vc]).Render(vb) == Ok(wb)
    requires Renderer(map[ka := va, kb := vb, kc := vc]).Render(vc) == Ok(wc)
    ensures Pass(map[ka := va, kb := vb, kc := vc]) == Ok(map[ka := wa, kb := wb, kc := wc])
  {
    var m, n := map[ka := va, kb := vb, kc := vc], map[ka := wa, kb := wb, kc := wc];
    forall k | k in m ensures Renderer(m).Render(m[k]) == Ok(n[k]) {
      if k == ka {
      } else if k == kb {
      } else {
        assert k == kc;
      }
    }
    PassOk(m, n);
  }

  lemma HomeFirstPass(ea: string, eb: string, ec: string, a: string, r: string, s: string, t: string)
    requires EncodedNames(ea, eb, ec) && PlainTexts(r, s, t)
    requires DottedKey(a) && ea == Encode(a)
    ensures Pass(HomeStart(ea, eb, ec, r, s, t)) == Ok(Home1(ea, eb, ec, a, r, s, t))
  {
    var m := HomeStart(ea, eb, ec, r, s, t);
    RenderPlain(m, r);
    RenderTagToPlain(m, ea, s);
    // `b`'s value goes in still holding the encoded placeholder, which decodes to the dotted one
    RenderTagToDotted(m, eb, t, a, s);
    PassOfThree(ea, eb, ec, r, Tag(ea) + s, Tag(eb) + t, r, r + s, Tag(a) + s + t);
  }

  lemma HomeSecondPass(ea: string, eb: string, ec: string, a: string, r: string, s: string, t: string)
    requires EncodedNames(ea, eb, ec) && PlainTexts(r, s, t)
    requires DottedKey(a) && ea == Encode(a)
    ensures Pass(Home1(ea, eb, ec, a, r, s, t)) == Ok(Home2(ea, eb, ec, r, s, t))
  {
    var m := Home1(ea, eb, ec, a, r, s, t);
    RenderPlain(m, r);
    RenderPlain(m, r + s);
    assert Tag(a) + s + t == Tag(a) + (s + t) && r + (s + t) == r + s + t;
    RenderDottedTag(m, a, s + t);
    PassOfThree(ea, eb, ec, r, r + s, Tag(a) + s + t, r, r + s, r + s + t);
  }

  /** The third pass finds nothing left to substitute. */
  lemma HomeSettled(ea: string, eb: string, ec: string, r: string, s: string, t: string)
    requires PlainTexts(r, s, t)
    ensures Pass(Home2(ea, eb, ec, r, s, t)) == Ok(Home2(ea, eb, ec, r, s, t))
  {
    PlainPass(Home2(ea, eb, ec, r, s, t));
  }

  lemma HomeDistinct(ea: string, eb: string, ec: string, a: string, r: string, s: string, t: string)
    requires EncodedNames(ea, eb, ec) && PlainTexts(r, s, t)
    ensures HomeStart(ea, eb, ec, r, s, t) != Home1(ea, eb, ec, a, r, s, t)
    ensures Home1(ea, eb, ec, a, r, s, t) != Home2(ea, eb, ec, r, s, t)
  {
    var m0, m1, m2 := HomeStart(ea, eb, ec, r, s, t), Home1(ea, eb, ec, a, r, s, t), Home2(ea, eb, ec, r, s, t);
    assert m0[eb] == Tag(ea) + s && m1[eb] == r + s;
    assert '{' in m0[eb] && '{' !in m1[eb];
    assert m1[ec] == Tag(a) + s + t && m2[ec] == r + s + t;
    assert '{' in m1[ec] && '{' !in m2[ec];
  }

  /** The three dotted names and the three plain texts of the example. */
  predicate HomeArgs(a: string, b: string, c: string, r: string, s: string, t: string) {
    && DottedKey(a) && DottedKey(b) && DottedKey(c) && a != b && b != c && a != c
    && PlainTexts(r, s, t)
  }

  /** The encodings of three keys, as a set. */
  lemma EncodedThree(ka: string, kb: string, kc: string)
    ensures EncodedKeys({ka, kb, kc}) == {Encode(ka), Encode(kb), Encode(kc)}
  {
    var e := EncodedKeys({ka, kb, kc});
    assert Encode(ka) in e && Encode(kb) in e && Encode(kc) in e;
  }

  /** A map with the encoded keys, holding each value encoded, is the re-keyed map. */
  lemma EncodeKeysAndValuesIs(m: map<string, string>, h: map<string, string>)
    requires EncodeInjective(m.Keys) && h.Keys == EncodedKeys(m.Keys)
    requires forall k :: k in m ==> h[Encode(k)] == Encode(m[k])
    ensures EncodeKeysAndValues(m) == h
  {
    var e := EncodeKeysAndValues(m);
    EncodeKeysAndValuesKeys(m);
    forall x | x in h ensures e[x] == h[x] {
      var k :| k in m && Encode(k) == x;
    }
  }

  /** The keys are transcodable and encode to three distinct names without '.' or braces. */
  lemma HomeKeys(a: string, b: string, c: string)
    requires DottedKey(a) && DottedKey(b) && DottedKey(c) && a != b && b != c && a != c
    ensures Transcodable(a) && Transcodable(b) && Transcodable(c)
    ensures EncodedNames(Encode(a), Encode(b), Encode(c)) && Encode(a) != Encode(c)
  {
    DottedKeyTranscodable(a);
    DottedKeyTranscodable(b);
    DottedKeyTranscodable(c);
    DecodeEncode(a);
    DecodeEncode(b);
    DecodeEncode(c);
    EncodedDottedKey(a);
    EncodedDottedKey(b);
  }

  /** The loop starts on the example re-keyed and with its values encoded. */
  lemma HomeStartIs(a: string, b: string, c: string, r: string, s: string, t: string)
    requires HomeArgs(a, b, c, r, s, t)
    ensures TranscodableKeys(Home0(a, b, c, r, s, t))
    ensures EncodeInjective(Home0(a, b, c, r, s, t).Keys)
      && EncodeKeysAndValues(Home0(a, b, c, r, s, t)) == HomeStart(Encode(a), Encode(b), Encode(c), r, s, t)
  {
    var m, h := Home0(a, b, c, r, s, t), HomeStart(Encode(a), Encode(b), Encode(c), r, s, t);
    HomeKeys(a, b, c);
    assert m.Keys == {a, b, c};
    TranscodableInjective(m.Keys);
    assert h.Keys == EncodedKeys(m.Keys) by {
      EncodedThree(a, b, c);
      ThreeAt(Encode(a), Encode(b), Encode(c), r, Tag(Encode(a)) + s, Tag(Encode(b)) + t);
    }
    HomeStartValues(a, b, c, r, s, t);
    EncodeKeysAndValuesIs(m, h);
  }

  /** Each value of the example, encoded, is the start map's entry under the encoded key. */
  lemma HomeStartValues(a: string, b: string, c: string, r: string, s: string, t: string)
    requires HomeArgs(a, b, c, r, s, t)
    ensures forall k :: k in Home0(a, b, c, r, s, t) ==>
      Encode(k) in HomeStart(Encode(a), Encode(b), Encode(c), r, s, t)
      && HomeStart(Encode(a), Encode(b), Encode(c), r, s, t)[Encode(k)] == Encode(Home0(a, b, c, r, s, t)[k])
  {
    HomeKeys(a, b, c);
    ThreeAt(a, b, c, r, Tag(a) + s, Tag(b) + t);
    ThreeAt(Encode(a), Encode(b), Encode(c), r, Tag(Encode(a)) + s, Tag(Encode(b)) + t);
    EncodeDotFree(r);
    EncodeTagThenText(a, s);
    EncodeTagThenText(b, t);
  }

  /** The entries of a map of three distinct keys. */
  lemma ThreeAt(ka: string, kb: string, kc: string, va: string, vb: string, vc: string)
    requires ka != kb && kb != kc && ka != kc
    ensures map[ka := va, kb := vb, kc := vc].Keys == {ka, kb, kc}
    ensures map[ka := va, kb := vb, kc := vc][ka] == va
    ensures map[ka := va, kb := vb, kc := vc][kb] == vb
    ensures map[ka := va, kb := vb, kc := vc][kc] == vc
  {
  }

  /** A plain value under an encoded key decodes to itself under the original key. */
  lemma DecodedAt(f: map<string, string>, keys: set<string>, k: string, v: string)
    requires forall k :: k in keys ==> Transcodable(k)
    requires f.Keys == EncodedKeys(keys) && k in keys && f[Encode(k)] == v && Plain(v)
    ensures DecodeKeysAndValues(f, keys)[k] == v
  {
    NoUnderscore(v);
    DecodeWithoutTriple(v);
  }

  /** Decoding a three-key map of plain values back onto its original keys. */
  lemma DecodeThree(ka: string, kb: string, kc: string, wa: string, wb: string, wc: string)
    requires Transcodable(ka) && Transcodable(kb) && Transcodable(kc)
    requires Encode(ka) != Encode(kb) && Encode(kb) != Encode(kc) && Encode(ka) != Encode(kc)
    requires Plain(wa) && Plain(wb) && Plain(wc)
    ensures map[Encode(ka) := wa, Encode(kb) := wb, Encode(kc) := wc].Keys == EncodedKeys({ka, kb, kc})
    ensures (forall k :: k in {ka, kb, kc} ==> Transcodable(k))
      && map[Encode(ka) := wa, Encode(kb) := wb, Encode(kc) := wc].Keys == EncodedKeys({ka, kb, kc})
      && ThreeEntries(DecodeKeysAndValues(map[Encode(ka) := wa, Encode(kb) := wb, Encode(kc) := wc], {ka, kb, kc}), ka, kb, kc, wa, wb, wc)
  {
    var f := map[Encode(ka) := wa, Encode(kb) := wb, Encode(kc) := wc];
    EncodedThree(ka, kb, kc);
    ThreeAt(Encode(ka), Encode(kb), Encode(kc), wa, wb, wc);
    DecodedAt(f, {ka, kb, kc}, ka, wa);
    DecodedAt(f, {ka, kb, kc}, kb, wb);
    DecodedAt(f, {ka, kb, kc}, kc, wc);
  }

  /** `d` holds exactly the three keys, with these values. */
  predicate ThreeEntries(d: map<string, string>, ka: string, kb: string, kc: string, wa: string, wb: string, wc: string) {
    d.Keys == {ka, kb, kc} && ka in d && kb in d && kc in d && d[ka] == wa && d[kb] == wb && d[kc] == wc
  }

  /**
   * The example of `render_values_in_template_map`'s documentation:
   * `main.home = /opt/myplatform`, `fooservice.home = {{main.home}}/fooservice`,
   * `fooservice.bin = {{fooservice.home}}/bin`, with any dotted names and
   * plain texts in their places. Two passes are not enough; three give every
   * value fully substituted, under its dotted name.
   */
  lemma HomeResolves(a: string, b: string, c: string, r: string, s: string, t: string)
    requires HomeArgs(a, b, c, r, s, t)
    ensures TranscodableKeys(Home0(a, b, c, r, s, t))
    ensures RenderValues(Home0(a, b, c, r, s, t), 2) == Err(NotConverged)
    ensures RenderValues(Home0(a, b, c, r, s, t), 3).Ok?
      && ThreeEntries(RenderValues(Home0(a, b, c, r, s, t), 3).value, a, b, c, r, r + s, r + s + t)
  {
    HomeKeys(a, b, c);
    HomeIterates(a, b, c, r, s, t);
    ThreeAt(a, b, c, r, Tag(a) + s, Tag(b) + t);
    DecodeThree(a, b, c, r, r + s, r + s + t);
  }

  /** The loop of passes on the example: two are not enough, the third settles. */
  lemma HomeIterates(a: string, b: string, c: string, r: string, s: string, t: string)
    requires HomeArgs(a, b, c, r, s, t)
    ensures TranscodableKeys(Home0(a, b, c, r, s, t))
    ensures EncodeInjective(Home0(a, b, c, r, s, t).Keys)
      && Iterate(Pass, EncodeKeysAndValues(Home0(a, b, c, r, s, t)), 2) == Err(NotConverged)
    ensures EncodeInjective(Home0(a, b, c, r, s, t).Keys)
      && Iterate(Pass, EncodeKeysAndValues(Home0(a, b, c, r, s, t)), 3) == Ok(Home2(Encode(a), Encode(b), Encode(c), r, s, t))
  {
    HomeKeys(a, b, c);
    var ea, eb, ec := Encode(a), Encode(b), Encode(c);
    HomeStartIs(a, b, c, r, s, t);
    HomeFirstPass(ea, eb, ec, a, r, s, t);
    HomeSecondPass(ea, eb, ec, a, r, s, t);
    HomeSettled(ea, eb, ec, r, s, t);
    HomeDistinct(ea, eb, ec, a, r, s, t);
    IterateSettlesInThree(Pass, HomeStart(ea, eb, ec, r, s, t), Home1(ea, eb, ec, a, r, s, t), Home2(ea, eb, ec, r, s, t));
  }

  /** `render_values_in_template_map` on `a = q{{a}}` fails for every pass budget. */
  lemma GrowingRenderValues(a: string, q: string, budget: nat)
    requires PlainKey(a) && Plain(q) && q != []
    ensures TranscodableKeys(map[a := q + Tag(a)])
    ensures RenderValues(map[a := q + Tag(a)], budget) == Err(NotConverged)
  {
    var m := map[a := q + Tag(a)];
    PlainKeysTranscodable(m);
    assert '.' !in q + Tag(a);
    EncodeDotFreeMap(m);
    GrowingNeverConverges(a, q, budget);
  }

  /** `render_values_in_template_map` on the two-cycle: one pass fails, two succeed. */
  lemma TwoCycleRenderValues(a: string, b: string)
    requires PlainKey(a) && PlainKey(b) && a != b
    ensures TranscodableKeys(map[a := Tag(b), b := Tag(a)])
    ensures RenderValues(map[a := Tag(b), b := Tag(a)], 1) == Err(NotConverged)
    ensures RenderValues(map[a := Tag(b), b := Tag(a)], 2).Ok?
  {
    var m := map[a := Tag(b), b := Tag(a)];
    PlainKeysTranscodable(m);
    EncodeDotFreeMap(m);
    TwoCycle(a, b);
  }
}
