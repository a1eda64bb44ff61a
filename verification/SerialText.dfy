/** The text rewrite that serializes a 64-bit compare-exchange kernel: brace matching, wrapping the body in
    the three grid loops, and adding the helper. The source is plain text; its braces are taken at face
    value. */
module SerialText {
  import opened ByteStrings

  datatype Result<T> = Ok(value: T) | Unsupported(why: string)

  // ----- searching -----

  predicate OccursAt(s: string, t: string, i: nat) {
    i + |t| <= |s| && s[i..i + |t|] == t
  }

  ghost predicate Occurs(s: string, t: string) {
    exists i: nat :: OccursAt(s, t, i)
  }

  /** The first occurrence of t at or after from. */
  method Find(s: string, t: string, from: nat) returns (r: Option<nat>)
    requires from <= |s|
    ensures r.Some? ==> FirstAt(s, t, from, r.value)
    ensures r.None? ==> NoneFrom(s, t, from)
  {
    var i := from;
    while i <= |s|
      invariant from <= i
      invariant forall j: nat :: from <= j < i ==> !OccursAt(s, t, j)
      decreases |s| + 1 - i
    {
      if OccursAt(s, t, i) {
        return Some(i);
      }
      i := i + 1;
    }
    r := None;
  }

  // ----- braces -----

  /** Opening minus closing braces. */
  function Depth(s: string): int {
    if s == [] then 0
    else
      Depth(s[..|s| - 1]) + (if s[|s| - 1] == '{' then 1 else if s[|s| - 1] == '}' then -1 else 0)
  }

  /** Every prefix has at least as many opening braces, and the whole as many as closing ones. */
  ghost predicate Balanced(s: string) {
    Depth(s) == 0 && forall n :: 0 <= n <= |s| ==> Depth(s[..n]) >= 0
  }

  lemma {:induction false} DepthAdd(a: string, b: string)
    ensures Depth(a + b) == Depth(a) + Depth(b)
    decreases |b|
  {
    if b == [] {
      assert a + b == a;
    } else {
      assert (a + b)[..|a + b| - 1] == a + b[..|b| - 1];
      DepthAdd(a, b[..|b| - 1]);
    }
  }

  lemma DepthOne()
    ensures Depth(['{']) == 1 && Depth(['}']) == -1
  {
  }

  /** The scan over the text from an opening brace: where the depth first returns to zero. */
  method MatchBrace(s: string, start: nat) returns (end: Option<nat>)
    requires start < |s| && s[start] == '{'
    ensures end.Some? ==> start < end.value < |s| && s[end.value] == '}' && Balanced(s[start + 1..end.value])
    ensures end.None? ==> forall n :: start < n < |s| && s[n] == '}' ==> !Balanced(s[start + 1..n])
  {
    var depth := 0;
    var index := start;
    while index < |s|
      invariant start <= index <= |s|
      invariant depth == Depth(s[start..index])
      invariant forall n :: start < n <= index ==> Depth(s[start..n]) > 0
    {
      assert s[start..index + 1][..index - start] == s[start..index];
      if s[index] == '{' {
        depth := depth + 1;
      } else if s[index] == '}' {
        depth := depth - 1;
        if depth == 0 {
          InnerBalanced(s, start, index);
          return Some(index);
        }
      }
      index := index + 1;
    }
    forall n | start < n < |s| && s[n] == '}' ensures !Balanced(s[start + 1..n]) {
      assert s[start..n + 1] == ['{'] + s[start + 1..n] + ['}'];
      DepthAdd(['{'] + s[start + 1..n], ['}']);
      DepthAdd(['{'], s[start + 1..n]);
      DepthOne();
      assert Depth(s[start..n + 1]) > 0;
    }
    end := None;
  }

  lemma InnerBalanced(s: string, start: nat, end: nat)
    requires start < end < |s| && s[start] == '{' && s[end] == '}'
    requires Depth(s[start..end + 1]) == 0
    requires forall n :: start < n <= end ==> Depth(s[start..n]) > 0
    ensures Balanced(s[start + 1..end])
  {
    hide Depth;
    DepthOne();
    var inner := s[start + 1..end];
    forall n | 0 <= n <= |inner| ensures Depth(inner[..n]) >= 0 && (n == |inner| ==> Depth(inner[..n]) == 0) {
      assert s[start..start + 1 + n] == ['{'] + inner[..n];
      DepthAdd(['{'], inner[..n]);
      assert Depth(s[start..start + 1 + n]) > 0;
      if n == |inner| {
        assert s[start..end + 1] == s[start..end] + ['}'];
        DepthAdd(s[start..end], ['}']);
      }
    }
    assert inner[..|inner|] == inner;
  }

  /** At most one closing brace ends a balanced body, so what the scan finds is the kernel body and nothing
      more or less. */
  lemma BodyUnique(s: string, start: nat, m: nat, n: nat)
    requires start < m < n < |s| && s[m] == '}'
    requires Balanced(s[start + 1..m])
    ensures !Balanced(s[start + 1..n])
  {
    hide Depth;
    DepthOne();
    var b := s[start + 1..n];
    assert b[..m - start] == s[start + 1..m] + ['}'];
    DepthAdd(s[start + 1..m], ['}']);
  }

  // ----- the rewrite -----

  const HELPER_CALL := "spvAtomicCompareExchange64("
  const MARKER := "using namespace metal;\n"
  const NAMED_KERNEL := "kernel void imb_compute_main"
  const PLAIN_KERNEL := "kernel void main0"
  const PARAMETER := "uint3 gl_GlobalInvocationID " + "[[thread_position_in_grid]]"
  const GRID_BUFFER := "[[buffer(30)]]"
  const REPLACEMENT :=
    "uint3 imbSerialThreadID " + "[[thread_position_in_grid]], " + "constant uint3& imbSerialGrid " + GRID_BUFFER
  const LOOP_PREFIX :=
    "\n    if (any(imbSerialThreadID != uint3(0u)))\n        return;\n" +
    "    for (uint imbSerialZ = 0u; imbSerialZ < imbSerialGrid.z; ++imbSerialZ)\n" +
    "    for (uint imbSerialY = 0u; imbSerialY < imbSerialGrid.y; ++imbSerialY)\n" +
    "    for (uint imbSerialX = 0u; imbSerialX < imbSerialGrid.x; ++imbSerialX)\n" +
    "    {\n        const uint3 gl_GlobalInvocationID = uint3(imbSerialX, imbSerialY, imbSerialZ);"
  const LOOP_SUFFIX := "    }\n"
  const HELPER :=
    "// IMB_SERIALIZED_ATOMIC64_EXECUTION_REQUIRED=1\n\n" +
    "inline ulong spvAtomicCompareExchange64(\n    device ulong* object,\n" +
    "    ulong expected,\n    ulong desired)\n{\n" +
    "    const ulong observed = *object;\n    if (observed == expected)\n        *object = desired;\n" +
    "    return observed;\n}\n"

  /** A kernel cut at its ID parameter and its body braces: head + parameter + mid + { + body + } + tail. */
  datatype Parts = Parts(head: string, mid: string, body: string, tail: string)

  function Joined(p: Parts, parameter: string, body: string): string {
    p.head + parameter + p.mid + "{" + body + "}" + p.tail
  }

  /** Where the rewrite applies: the first kernel entry point, the first brace after it, and between the two
      the ID parameter exactly once and no parameter at the grid's buffer index. */
  datatype Site = Site(kernel: nat, parameter: nat, brace: nat)

  ghost predicate Signature(source: string, token: string, t: Site) {
    && FirstAt(source, token, 0, t.kernel)
    && FirstAt(source, "{", t.kernel, t.brace)
    && t.kernel <= t.parameter
    && var signature := source[t.kernel..t.brace];
    && FirstAt(signature, PARAMETER, 0, t.parameter - t.kernel)
    && NoneFrom(signature, PARAMETER, t.parameter - t.kernel + |PARAMETER|)
    && !Occurs(signature, GRID_BUFFER)
  }

  /** The text's one cut: at such a site, with the body that the site's brace and its match enclose. */
  ghost predicate Cut(source: string, token: string, t: Site, p: Parts) {
    && Signature(source, token, t)
    && source == Joined(p, PARAMETER, p.body)
    && t.parameter == |p.head| && t.brace == BodyStart(p)
    && Balanced(p.body)
  }

  function BodyStart(p: Parts): nat {
    |p.head| + |PARAMETER| + |p.mid|
  }

  ghost predicate FirstAt(s: string, t: string, from: nat, i: nat) {
    from <= i && OccursAt(s, t, i) && forall j: nat :: from <= j < i ==> !OccursAt(s, t, j)
  }

  ghost predicate NoneFrom(s: string, t: string, from: nat) {
    forall i: nat :: from <= i ==> !OccursAt(s, t, i)
  }

  method Has(s: string, t: string) returns (b: bool)
    ensures b <==> Occurs(s, t)
  {
    var r := Find(s, t, 0);
    b := r.Some?;
    assert r.Some? ==> OccursAt(s, t, r.value);
  }

  /** The token and the parameter cannot overlap. */
  lemma TokenBeforeParameter(s: string, token: string, kernel: nat, p: nat)
    requires token == NAMED_KERNEL || token == PLAIN_KERNEL
    requires OccursAt(s, token, kernel) && OccursAt(s, PARAMETER, p) && kernel <= p
    ensures kernel + |token| <= p
  {
    if p < kernel + |token| {
      var j := p - kernel;
      assert s[p] == s[kernel..kernel + |token|][j] == token[j];
      assert s[p] == s[p..p + |PARAMETER|][0] == 'u';
      assert s[p + 1] == s[p..p + |PARAMETER|][1] == 'i';
      assert j + 1 < |token| ==> s[p + 1] == s[kernel..kernel + |token|][j + 1] == token[j + 1];
      NoSuchPair(token, j);
    }
  }

  lemma NoSuchPair(token: string, j: nat)
    requires token == NAMED_KERNEL || token == PLAIN_KERNEL
    requires j < |token| && token[j] == 'u'
    ensures j + 1 < |token| && token[j + 1] != 'i'
  {
  }

  lemma NoBraceInReplacement(i: nat)
    requires i < |REPLACEMENT|
    ensures REPLACEMENT[i] != '{'
  {
  }

  lemma FirstUnique(s: string, t: string, from: nat, i: nat, j: nat)
    requires FirstAt(s, t, from, i) && FirstAt(s, t, from, j)
    ensures i == j
  {
  }

  lemma SiteUnique(source: string, token: string, t: Site, u: Site)
    requires Signature(source, token, t) && Signature(source, token, u)
    ensures t == u
  {
    FirstUnique(source, token, 0, t.kernel, u.kernel);
    FirstUnique(source, "{", t.kernel, t.brace, u.brace);
    FirstUnique(source[t.kernel..t.brace], PARAMETER, 0, t.parameter - t.kernel, u.parameter - t.kernel);
  }

  ghost predicate HasSite(source: string, token: string) {
    exists t :: Signature(source, token, t)
  }

  ghost predicate HasCut(source: string, token: string) {
    exists t, p :: Cut(source, token, t, p)
  }

  method LocateSite(source: string, token: string) returns (r: Result<Site>)
    ensures r.Ok? ==> Signature(source, token, r.value)
    ensures r.Unsupported? ==> !HasSite(source, token)
  {
    hide PARAMETER, GRID_BUFFER;
    var kernelStart := Find(source, token, 0);
    if kernelStart.None? {
      return Unsupported("the translated compute entry point is missing");
    }
    var kernel := kernelStart.value;
    var bodyStart := Find(source, "{", kernel);
    forall t | Signature(source, token, t) ensures t.kernel == kernel {
      FirstUnique(source, token, 0, t.kernel, kernel);
    }
    if bodyStart.None? {
      return Unsupported("the translated compute entry point is missing");
    }
    forall t | Signature(source, token, t) ensures t.brace == bodyStart.value {
      FirstUnique(source, "{", kernel, t.brace, bodyStart.value);
    }
    var signature := source[kernel..bodyStart.value];
    var parameter := Find(signature, PARAMETER, 0);
    if parameter.None? {
      return Unsupported("GlobalInvocationID is not a single uint3 kernel parameter");
    }
    forall t | Signature(source, token, t) ensures t.parameter == kernel + parameter.value {
      FirstUnique(signature, PARAMETER, 0, t.parameter - kernel, parameter.value);
    }
    var second := Find(signature, PARAMETER, parameter.value + |PARAMETER|);
    if second.Some? {
      return Unsupported("GlobalInvocationID is not a single uint3 kernel parameter");
    }
    var occupied := Has(signature, GRID_BUFFER);
    if occupied {
      return Unsupported("Metal buffer index 30 is already occupied");
    }
    r := Ok(Site(kernel, kernel + parameter.value, bodyStart.value));
  }

  /** Finding the cut; it fails only on text that has none. */
  method Locate(source: string, token: string) returns (r: Result<Parts>, ghost t: Site)
    ensures r.Ok? ==> Cut(source, token, t, r.value)
    ensures r.Unsupported? ==> !HasCut(source, token)
  {
    hide Signature, PARAMETER, Joined, BodyStart, Balanced;
    t := Site(0, 0, 0);
    var site := LocateSite(source, token);
    if site.Unsupported? {
      return Unsupported(site.why), t;
    }
    t := site.value;
    var start, at := site.value.brace, site.value.parameter;
    SignatureSlice(source, token, t);
    var bodyEnd := MatchBrace(source, start);
    if bodyEnd.None? {
      forall u, p | Cut(source, token, u, p) ensures false {
        SiteUnique(source, token, t, u);
        BodyThere(source, p);
      }
      return Unsupported("the translated compute body is unbalanced"), t;
    }
    var p := Parts(source[..at], source[at + |PARAMETER|..start],
                   source[start + 1..bodyEnd.value], source[bodyEnd.value + 1..]);
    CutIsJoined(source, p, at, start, bodyEnd.value);
    r := Ok(p);
  }

  lemma SignatureSlice(source: string, token: string, t: Site)
    requires Signature(source, token, t)
    ensures t.parameter + |PARAMETER| <= t.brace < |source| && source[t.brace] == '{'
    ensures source[t.parameter..t.parameter + |PARAMETER|] == PARAMETER
  {
    assert source[t.brace] == source[t.brace..t.brace + 1][0];
    SliceOfSlice(source, t.kernel, t.brace, t.parameter - t.kernel, |PARAMETER|);
  }

  lemma SliceOfSlice(s: string, from: nat, to: nat, at: nat, n: nat)
    requires from <= to <= |s| && at + n <= to - from
    ensures s[from..to][at..at + n] == s[from + at..from + at + n]
  {
    var a, b := s[from..to][at..at + n], s[from + at..from + at + n];
    assert forall i :: 0 <= i < n ==> a[i] == s[from..to][at + i] == b[i];
  }

  lemma CutIsJoined(source: string, p: Parts, at: nat, start: nat, end: nat)
    requires at + |PARAMETER| <= start < end < |source| && source[at..at + |PARAMETER|] == PARAMETER
    requires source[start] == '{' && source[end] == '}'
    requires p == Parts(source[..at], source[at + |PARAMETER|..start], source[start + 1..end], source[end + 1..])
    ensures source == Joined(p, PARAMETER, p.body) && start == BodyStart(p)
  {
    hide PARAMETER;
    assert p.head + PARAMETER == source[..at + |PARAMETER|];
    assert p.head + PARAMETER + p.mid == source[..start];
    assert p.head + PARAMETER + p.mid + "{" == source[..start + 1];
    assert p.head + PARAMETER + p.mid + "{" + p.body == source[..end];
    assert p.head + PARAMETER + p.mid + "{" + p.body + "}" == source[..end + 1];
  }

  lemma BodyThere(source: string, p: Parts)
    requires source == Joined(p, PARAMETER, p.body)
    ensures var start := BodyStart(p); var end := start + 1 + |p.body|;
      end < |source| && source[start + 1..end] == p.body && source[end] == '}' && source[start] == '{'
  {
    hide PARAMETER;
  }

  // ----- the whole rewrite -----

  ghost predicate Coordinated(source: string) {
    || Occurs(source, "thread_position_in_threadgroup") || Occurs(source, "threadgroup_position_in_grid")
    || Occurs(source, "simdgroup") || Occurs(source, "threadgroup_barrier")
  }

  ghost function Token(source: string): string {
    if Occurs(source, NAMED_KERNEL) then NAMED_KERNEL else PLAIN_KERNEL
  }

  /** The kernel with its parameter replaced and its body, and nothing else, inside the loops. */
  function Wrapped(p: Parts): string {
    Joined(p, REPLACEMENT, LOOP_PREFIX + p.body + LOOP_SUFFIX)
  }

  /** out is s with the helper right after the first marker. */
  ghost predicate HelperAdded(s: string, out: string) {
    exists i: nat :: FirstAt(s, MARKER, 0, i) && out == s[..i + |MARKER|] + HELPER + s[i + |MARKER|..]
  }

  ghost predicate Rewritten(source: string, out: string) {
    && !Coordinated(source) && Occurs(source, MARKER)
    && exists t, p :: Cut(source, Token(source), t, p) && HelperAdded(Wrapped(p), out)
  }

  ghost predicate NoBrace(s: string, from: nat) {
    forall i :: from <= i < |s| ==> s[i] != '{'
  }

  lemma ReplacementNoBrace()
    ensures NoBrace(REPLACEMENT, 0)
  {
    forall i | 0 <= i < |REPLACEMENT| ensures REPLACEMENT[i] != '{' { NoBraceInReplacement(i); }
  }

  lemma BraceOccurs(s: string, i: nat)
    requires i < |s|
    ensures OccursAt(s, "{", i) <==> s[i] == '{'
  {
    assert s[i..i + 1] == [s[i]];
  }

  lemma CutNoBrace(source: string, token: string, t: Site, p: Parts)
    requires Cut(source, token, t, p)
    ensures NoBrace(p.head, t.kernel) && NoBrace(p.mid, 0)
  {
    hide PARAMETER;
    forall i | t.kernel <= i < BodyStart(p) ensures source[i] != '{' { BraceOccurs(source, i); }
    assert forall i :: 0 <= i < |p.mid| ==> p.mid[i] == source[i + |p.head| + |PARAMETER|];
    assert forall i :: 0 <= i < |p.head| ==> p.head[i] == source[i];
  }

  lemma FirstBrace(p: Parts, parameter: string, kernel: nat)
    requires kernel <= |p.head| && NoBrace(p.head, kernel) && NoBrace(p.mid, 0) && NoBrace(parameter, 0)
    ensures FirstAt(Joined(p, parameter, p.body), "{", kernel, |p.head| + |parameter| + |p.mid|)
  {
    var s := Joined(p, parameter, p.body);
    var brace := |p.head| + |parameter| + |p.mid|;
    BraceOccurs(s, brace);
    forall j: nat | kernel <= j < brace ensures !OccursAt(s, "{", j) {
      BraceOccurs(s, j);
    }
  }

  /** The replaced text has its kernel, brace and body at the shifted places, so the second search, made on
      that text, finds the same kernel again. */
  lemma FoundAgain(source: string, token: string, t: Site, p: Parts)
    requires token == NAMED_KERNEL || token == PLAIN_KERNEL
    requires Cut(source, token, t, p)
    ensures var s := Joined(p, REPLACEMENT, p.body);
      FirstAt(s, token, 0, t.kernel) && FirstAt(s, "{", t.kernel, |p.head| + |REPLACEMENT| + |p.mid|)
  {
    hide NoBrace;
    var s := Joined(p, REPLACEMENT, p.body);
    SignatureSlice(source, token, t);
    CutNoBrace(source, token, t, p);
    hide PARAMETER, REPLACEMENT, NAMED_KERNEL, PLAIN_KERNEL;
    TokenBeforeParameter(source, token, t.kernel, t.parameter);
    ReplacementNoBrace();
    HeadFirst(p, PARAMETER);
    HeadFirst(p, REPLACEMENT);
    hide Joined, OccursAt;
    FirstBrace(p, REPLACEMENT, t.kernel);
    hide NoBrace, BodyStart;
    SamePrefix(source, s, p.head, token, t.kernel);
  }

  lemma HeadFirst(p: Parts, parameter: string)
    ensures p.head <= Joined(p, parameter, p.body)
  {
  }

  lemma SamePrefix(a: string, b: string, head: string, token: string, k: nat)
    requires head <= a && head <= b && FirstAt(a, token, 0, k) && k + |token| <= |head|
    ensures FirstAt(b, token, 0, k)
  {
    forall j: nat | j <= k ensures OccursAt(b, token, j) <==> OccursAt(a, token, j) {
      assert a[j..j + |token|] == head[j..j + |token|] == b[j..j + |token|];
    }
  }

  /** The second search and match, on the replaced text, end at the same body. */
  method MatchAgain(source: string, token: string, ghost t: Site, p: Parts) returns (s: string, start: nat, end: nat)
    requires token == NAMED_KERNEL || token == PLAIN_KERNEL
    requires Cut(source, token, t, p)
    ensures s == Joined(p, REPLACEMENT, p.body)
    ensures start == |p.head| + |REPLACEMENT| + |p.mid| && end == start + 1 + |p.body|
  {
    hide PARAMETER, REPLACEMENT, NAMED_KERNEL, PLAIN_KERNEL, Signature, OccursAt;
    s := Joined(p, REPLACEMENT, p.body);
    FoundAgain(source, token, t, p);
    var kernelStart := Find(s, token, 0);
    FirstUnique(s, token, 0, kernelStart.value, t.kernel);
    var bodyStart := Find(s, "{", kernelStart.value);
    start := |p.head| + |REPLACEMENT| + |p.mid|;
    FirstUnique(s, "{", t.kernel, bodyStart.value, start);
    ghost var close := start + 1 + |p.body|;
    assert s[start] == '{' && s[close] == '}' && s[start + 1..close] == p.body;
    hide Joined;
    var bodyEnd := MatchBrace(s, bodyStart.value);
    end := bodyEnd.value;
    SameEnd(s, start, end, close);
  }

  /** Wrapping the body: the suffix goes in first, so that the earlier position stays right. */
  method Wrap(p: Parts, joined: string, start: nat, end: nat) returns (s: string)
    requires joined == Joined(p, REPLACEMENT, p.body)
    requires start == |p.head| + |REPLACEMENT| + |p.mid| && end == start + 1 + |p.body|
    ensures s == Wrapped(p)
  {
    hide REPLACEMENT, LOOP_PREFIX, LOOP_SUFFIX;
    s := joined[..end] + LOOP_SUFFIX + joined[end..];
    assert joined[..end] == p.head + REPLACEMENT + p.mid + "{" + p.body && joined[end..] == "}" + p.tail;
    assert s[..start + 1] == p.head + REPLACEMENT + p.mid + "{";
    assert s[start + 1..] == p.body + LOOP_SUFFIX + "}" + p.tail;
    s := s[..start + 1] + LOOP_PREFIX + s[start + 1..];
  }

  /** The cut of a source is unique, so the rewritten text is. */
  lemma CutUnique(source: string, token: string, t: Site, p: Parts, u: Site, q: Parts)
    requires Cut(source, token, t, p) && Cut(source, token, u, q)
    ensures t == u && p == q
  {
    hide PARAMETER, Signature, Balanced, Joined;
    SiteUnique(source, token, t, u);
    BodyThere(source, p);
    BodyThere(source, q);
    PartsAt(source, p);
    PartsAt(source, q);
    SameEnd(source, t.brace, t.brace + 1 + |p.body|, t.brace + 1 + |q.body|);
  }

  lemma SameEnd(s: string, start: nat, m: nat, n: nat)
    requires start < m < |s| && start < n < |s| && s[m] == '}' && s[n] == '}'
    requires Balanced(s[start + 1..m]) && Balanced(s[start + 1..n])
    ensures m == n
  {
    if m < n { BodyUnique(s, start, m, n); } else if n < m { BodyUnique(s, start, n, m); }
  }

  lemma PartsAt(source: string, p: Parts)
    requires source == Joined(p, PARAMETER, p.body)
    ensures var at, start := |p.head|, BodyStart(p); var end := start + 1 + |p.body|;
      end < |source| && p.head == source[..at] && p.mid == source[at + |PARAMETER|..start]
      && p.body == source[start + 1..end] && p.tail == source[end + 1..]
  {
    hide PARAMETER;
  }

  method CoordinationFree(source: string) returns (free: bool)
    ensures free <==> !Coordinated(source)
  {
    var a := Has(source, "thread_position_in_threadgroup");
    var b := Has(source, "threadgroup_position_in_grid");
    var c := Has(source, "simdgroup");
    var d := Has(source, "threadgroup_barrier");
    free := !a && !b && !c && !d;
  }

  method ChooseToken(source: string) returns (token: string)
    ensures token == Token(source)
  {
    var named := Has(source, NAMED_KERNEL);
    token := if named then NAMED_KERNEL else PLAIN_KERNEL;
  }

  /** The source unchanged when it needs no helper; otherwise the one rewritten text, or a refusal exactly
      when there is none. */
  method AddSerializedAtomic64Support(source: string) returns (r: Result<string>)
    ensures !Occurs(source, HELPER_CALL) ==> r == Ok(source)
    ensures Occurs(source, HELPER_CALL) && r.Ok? ==> Rewritten(source, r.value)
    ensures Occurs(source, HELPER_CALL) && r.Unsupported? ==> forall out :: !Rewritten(source, out)
  {
    hide PARAMETER, REPLACEMENT, LOOP_PREFIX, LOOP_SUFFIX, HELPER, MARKER, NAMED_KERNEL, PLAIN_KERNEL, Coordinated,
      Cut, Wrapped, Occurs, HELPER_CALL;
    var needed := Has(source, HELPER_CALL);
    if !needed {
      return Ok(source);
    }
    var free := CoordinationFree(source);
    if !free {
      return Unsupported("the shader uses threadgroup or subgroup execution state");
    }
    var marked := Has(source, MARKER);
    if !marked {
      return Unsupported("the Metal namespace marker is missing");
    }
    var token := ChooseToken(source);
    var cut, t := Locate(source, token);
    if cut.Unsupported? {
      return Unsupported(cut.why);
    }
    var p := cut.value;
    var joined, start, end := MatchAgain(source, token, t, p);
    var s := Wrap(p, joined, start, end);
    var marker := Find(s, MARKER, 0);
    if marker.None? {
      forall u, q | Cut(source, token, u, q) ensures q == p { CutUnique(source, token, t, p, u, q); }
      return Unsupported("the rewritten Metal namespace marker is missing");
    }
    r := Ok(s[..marker.value + |MARKER|] + HELPER + s[marker.value + |MARKER|..]);
    assert HelperAdded(s, r.value);
  }
}
