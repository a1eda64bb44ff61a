/** A source text with an early return in its kernel body that the rewrite accepts: the first invocation returns
    and every other one turns the zero at p into a one. */
module SerialExample {
  import opened ByteStrings
  import opened SerialText

  const OPENING := "(device ulong* p [[buffer(0)]], "
  const GUARD := "\n    if (gl_GlobalInvocationID.x" + " == 0) return;"
  const EXCHANGE := "\n    " + HELPER_CALL + "p, 0, 1);\n"

  function LeavingParts(): Parts {
    Parts(MARKER + PLAIN_KERNEL + OPENING, ")", GUARD + EXCHANGE, "")
  }

  function LeavingSource(): string {
    Joined(LeavingParts(), PARAMETER, LeavingParts().body)
  }

  /** A character pair that would start one of the texts the rewrite looks for and refuses: "dg" of
      "threadgroup" and "simdgroup", "mb" of the named kernel, "(3" of the grid's buffer index. */
  predicate Telling(a: char, b: char) {
    (a == 'd' && b == 'g') || (a == 'm' && b == 'b') || (a == '(' && b == '3')
  }

  predicate Quiet(s: string) {
    forall i :: 0 <= i < |s| - 1 ==> !Telling(s[i], s[i + 1])
  }

  lemma QuietAdd(a: string, b: string)
    requires Quiet(a) && Quiet(b) && a != [] && b != [] && !Telling(a[|a| - 1], b[0])
    ensures Quiet(a + b)
  {
  }

  lemma QuietPrefix(s: string, from: nat, to: nat)
    requires Quiet(s) && from <= to <= |s|
    ensures Quiet(s[from..to])
  {
  }

  /** A quiet text holds no text with a telling pair. */
  lemma NoTelling(s: string, t: string, j: nat)
    requires Quiet(s) && j + 1 < |t| && Telling(t[j], t[j + 1])
    ensures !Occurs(s, t)
  {
    forall i: nat ensures !OccursAt(s, t, i) {
      SlicePair(s, i, i + |t|, j);
    }
  }

  lemma SlicePair(s: string, i: nat, end: nat, j: nat)
    ensures i <= end <= |s| && j + 1 < end - i ==> s[i..end][j] == s[i + j] && s[i..end][j + 1] == s[i + j + 1]
  {
  }

  lemma QuietMarker()
    ensures Quiet(MARKER)
  {
    forall i | 0 <= i < |MARKER| - 1 ensures !Telling(MARKER[i], MARKER[i + 1]) {
    }
  }

  lemma QuietKernel()
    ensures Quiet(PLAIN_KERNEL)
  {
    forall i | 0 <= i < |PLAIN_KERNEL| - 1 ensures !Telling(PLAIN_KERNEL[i], PLAIN_KERNEL[i + 1]) {
    }
  }

  lemma QuietOpening()
    ensures Quiet(OPENING)
  {
    forall i | 0 <= i < |OPENING| - 1 ensures !Telling(OPENING[i], OPENING[i + 1]) {
    }
  }

  lemma QuietParameter()
    ensures Quiet(PARAMETER)
  {
    forall i | 0 <= i < |PARAMETER| - 1 ensures !Telling(PARAMETER[i], PARAMETER[i + 1]) {
    }
  }

  lemma QuietGuard()
    ensures Quiet(GUARD)
  {
    forall i | 0 <= i < |GUARD| - 1 ensures !Telling(GUARD[i], GUARD[i + 1]) {
    }
  }

  lemma QuietExchange()
    ensures Quiet(EXCHANGE)
  {
    forall i | 0 <= i < |EXCHANGE| - 1 ensures !Telling(EXCHANGE[i], EXCHANGE[i + 1]) {
    }
  }

  lemma QuietSource()
    ensures Quiet(LeavingSource())
  {
    QuietMarker();
    QuietKernel();
    QuietOpening();
    QuietParameter();
    QuietGuard();
    QuietExchange();
    hide Quiet;
    var p := LeavingParts();
    QuietAdd(MARKER, PLAIN_KERNEL);
    QuietAdd(MARKER + PLAIN_KERNEL, OPENING);
    QuietAdd(p.head, PARAMETER);
    QuietAdd(p.head + PARAMETER, ")");
    QuietAdd(p.head + PARAMETER + ")", "{");
    QuietAdd(GUARD, EXCHANGE);
    QuietAdd(p.head + PARAMETER + ")" + "{", p.body);
    QuietAdd(p.head + PARAMETER + ")" + "{" + p.body, "}");
    assert LeavingSource() == p.head + PARAMETER + ")" + "{" + p.body + "}";
  }

  lemma TellingTexts()
    ensures Telling("thread_position_in_threadgroup"[24], "thread_position_in_threadgroup"[25])
    ensures Telling("threadgroup_position_in_grid"[5], "threadgroup_position_in_grid"[6])
    ensures Telling("simdgroup"[3], "simdgroup"[4]) && Telling("threadgroup_barrier"[5], "threadgroup_barrier"[6])
    ensures Telling(NAMED_KERNEL[13], NAMED_KERNEL[14]) && Telling(GRID_BUFFER[8], GRID_BUFFER[9])
  {
  }

  lemma Uncoordinated()
    ensures !Coordinated(LeavingSource()) && Token(LeavingSource()) == PLAIN_KERNEL
  {
    QuietSource();
    TellingTexts();
    hide Quiet, LeavingSource;
    var s := LeavingSource();
    NoTelling(s, "thread_position_in_threadgroup", 24);
    NoTelling(s, "threadgroup_position_in_grid", 5);
    NoTelling(s, "simdgroup", 3);
    NoTelling(s, "threadgroup_barrier", 5);
    NoTelling(s, NAMED_KERNEL, 13);
  }

  // ----- where its kernel is -----

  function LeavingSite(): Site {
    Site(|MARKER|, |MARKER| + |PLAIN_KERNEL| + |OPENING|, |MARKER| + |PLAIN_KERNEL| + |OPENING| + |PARAMETER| + 1)
  }

  /** The text from the kernel on to the brace. */
  function LeavingSignature(): string {
    PLAIN_KERNEL + OPENING + PARAMETER + ")"
  }

  lemma SourceSplit()
    ensures LeavingSource() == MARKER + LeavingSignature() + "{" + LeavingParts().body + "}"
    ensures var s, t := LeavingSource(), LeavingSite();
      t.kernel < t.parameter < t.brace < |s| && s[..t.kernel] == MARKER && s[t.kernel..t.brace] == LeavingSignature()
      && s[t.brace] == '{'
  {
    hide MARKER, PLAIN_KERNEL, OPENING, PARAMETER, GUARD, EXCHANGE;
    var s, body := LeavingSource(), LeavingParts().body;
    assert s == MARKER + LeavingSignature() + "{" + body + "}";
    assert |LeavingSignature()| == LeavingSite().brace - LeavingSite().kernel;
    assert |LeavingSignature()| == |PLAIN_KERNEL| + |OPENING| + |PARAMETER| + 1;
    KernelToken();
  }

  lemma KernelToken()
    ensures PLAIN_KERNEL != [] && PLAIN_KERNEL[0] == 'k'
  {
  }

  /** Nothing in front of the kernel begins like it. */
  lemma KernelFirst()
    ensures FirstAt(LeavingSource(), PLAIN_KERNEL, 0, LeavingSite().kernel)
  {
    SourceSplit();
    NoKernelLetter();
    hide LeavingSource, MARKER, OPENING, PARAMETER;
    var s, at := LeavingSource(), LeavingSite().kernel;
    assert s[at..at + |PLAIN_KERNEL|] == LeavingSignature()[..|PLAIN_KERNEL|] == PLAIN_KERNEL;
    forall j: nat | j < at ensures !OccursAt(s, PLAIN_KERNEL, j) {
      assert s[j] == MARKER[j] != 'k';
      FirstLetter(s, PLAIN_KERNEL, j);
    }
  }

  lemma NoKernelLetter()
    ensures PLAIN_KERNEL[0] == 'k' && forall j :: 0 <= j < |MARKER| ==> MARKER[j] != 'k'
  {
    forall j | 0 <= j < |MARKER| ensures MARKER[j] != 'k' {
    }
  }

  lemma FirstLetter(s: string, t: string, j: nat)
    requires t != [] && j < |s| && s[j] != t[0]
    ensures !OccursAt(s, t, j)
  {
    if j + |t| <= |s| { assert s[j..j + |t|][0] == s[j]; }
  }

  lemma ParameterFirst()
    ensures var t := LeavingSite(); FirstAt(LeavingSignature(), PARAMETER, 0, t.parameter - t.kernel)
    ensures var t := LeavingSite(); NoneFrom(LeavingSignature(), PARAMETER, t.parameter - t.kernel + |PARAMETER|)
  {
    NoParameterPair();
    ParameterStart();
    hide MARKER, PLAIN_KERNEL, OPENING, PARAMETER;
    var before, s := PLAIN_KERNEL + OPENING, LeavingSignature();
    var at := |before|;
    assert s == before + PARAMETER + ")";
    assert s[at..at + |PARAMETER|] == PARAMETER;
    forall j: nat | j < at ensures !OccursAt(s, PARAMETER, j) {
      assert s[j] == before[j];
      if before[j] == 'u' {
        assert s[j + 1] == before[j + 1];
      }
      SlicePair(s, j, j + |PARAMETER|, 0);
    }
  }

  lemma ParameterStart()
    ensures |PARAMETER| > 1 && PARAMETER[0] == 'u' && PARAMETER[1] == 'i'
  {
  }

  lemma NoParameterPair()
    ensures var before := PLAIN_KERNEL + OPENING;
      forall j :: 0 <= j < |before| && before[j] == 'u' ==> j + 1 < |before| && before[j + 1] != 'i'
  {
    forall j | 0 <= j < |PLAIN_KERNEL| ensures PLAIN_KERNEL[j] != 'u' {
    }
    forall j | 0 <= j < |OPENING| && OPENING[j] == 'u' ensures j + 1 < |OPENING| && OPENING[j + 1] != 'i' {
    }
    hide PLAIN_KERNEL, OPENING;
  }

  predicate NoBraces(s: string) {
    forall i :: 0 <= i < |s| ==> s[i] != '{' && s[i] != '}'
  }

  lemma KernelNoBraces()
    ensures NoBraces(PLAIN_KERNEL)
  {
    forall i | 0 <= i < |PLAIN_KERNEL| ensures PLAIN_KERNEL[i] != '{' && PLAIN_KERNEL[i] != '}' {
    }
  }

  lemma OpeningNoBraces()
    ensures NoBraces(OPENING)
  {
    forall i | 0 <= i < |OPENING| ensures OPENING[i] != '{' && OPENING[i] != '}' {
    }
  }

  lemma ParameterNoBraces()
    ensures NoBraces(PARAMETER)
  {
    forall i | 0 <= i < |PARAMETER| ensures PARAMETER[i] != '{' && PARAMETER[i] != '}' {
    }
  }

  lemma GuardNoBraces()
    ensures NoBraces(GUARD)
  {
    forall i | 0 <= i < |GUARD| ensures GUARD[i] != '{' && GUARD[i] != '}' {
    }
  }

  lemma ExchangeNoBraces()
    ensures NoBraces(EXCHANGE)
  {
    forall i | 0 <= i < |EXCHANGE| ensures EXCHANGE[i] != '{' && EXCHANGE[i] != '}' {
    }
  }

  lemma NoBracesIn()
    ensures NoBraces(LeavingSignature()) && NoBraces(LeavingParts().body)
  {
    KernelNoBraces();
    OpeningNoBraces();
    ParameterNoBraces();
    GuardNoBraces();
    ExchangeNoBraces();
    hide PLAIN_KERNEL, OPENING, PARAMETER, GUARD, EXCHANGE;
  }

  lemma BraceFirst()
    ensures FirstAt(LeavingSource(), "{", LeavingSite().kernel, LeavingSite().brace)
  {
    SourceSplit();
    NoBracesIn();
    hide LeavingSource, LeavingSignature, LeavingParts, LeavingSite;
    var s, t := LeavingSource(), LeavingSite();
    BraceOccurs(s, t.brace);
    forall j: nat | t.kernel <= j < t.brace ensures !OccursAt(s, "{", j) {
      assert s[j] == s[t.kernel..t.brace][j - t.kernel];
      BraceOccurs(s, j);
    }
  }

  lemma {:induction false} NoBracesBalanced(s: string)
    requires NoBraces(s)
    ensures Depth(s) == 0
  {
    if s != [] { NoBracesBalanced(s[..|s| - 1]); }
  }

  lemma LeavingCut()
    ensures Cut(LeavingSource(), PLAIN_KERNEL, LeavingSite(), LeavingParts())
  {
    SourceSplit();
    KernelFirst();
    BraceFirst();
    ParameterFirst();
    QuietSource();
    TellingTexts();
    QuietPrefix(LeavingSource(), LeavingSite().kernel, LeavingSite().brace);
    NoTelling(LeavingSignature(), GRID_BUFFER, 8);
    NoBracesIn();
    var body := LeavingParts().body;
    forall n | 0 <= n <= |body| ensures Depth(body[..n]) == 0 {
      NoBracesBalanced(body[..n]);
    }
    assert body[..|body|] == body;
    hide MARKER, PLAIN_KERNEL, OPENING, PARAMETER, GUARD, EXCHANGE, FirstAt, NoneFrom, Occurs, Quiet, Depth,
      LeavingSignature, NoBraces;
  }

  /** The rewrite accepts the text: it calls the helper, its body returns early, and there is a rewritten text,
      which is the one the rewriting method must then give. */
  lemma EarlyReturnAccepted()
    ensures Occurs(LeavingSource(), HELPER_CALL) && Occurs(LeavingParts().body, "return;")
    ensures Cut(LeavingSource(), Token(LeavingSource()), LeavingSite(), LeavingParts())
    ensures exists out :: Rewritten(LeavingSource(), out)
  {
    LeavingCut();
    Uncoordinated();
    CallsAndReturns();
    SourceSplit();
    hide PLAIN_KERNEL, OPENING, PARAMETER, REPLACEMENT, LOOP_PREFIX, LOOP_SUFFIX, GUARD, EXCHANGE, HELPER, HELPER_CALL,
      Cut, Coordinated, Token, MARKER;
    var s := LeavingSource();
    assert s[0..|MARKER|] == MARKER;
    assert OccursAt(s, MARKER, 0);
    var w := Wrapped(LeavingParts());
    assert w[0..|MARKER|] == MARKER;
    assert FirstAt(w, MARKER, 0, 0);
    var out := w[..0 + |MARKER|] + HELPER + w[0 + |MARKER|..];
    assert HelperAdded(w, out);
    assert Rewritten(s, out);
  }

  lemma CallsAndReturns()
    ensures Occurs(LeavingSource(), HELPER_CALL) && Occurs(LeavingParts().body, "return;")
  {
    var body, s := LeavingParts().body, LeavingSource();
    var r, c := |GUARD| - 7, |GUARD| + 5;
    assert GUARD[r..] == "return;";
    assert body[r..r + 7] == GUARD[r..];
    assert OccursAt(body, "return;", r);
    hide GUARD, MARKER, PLAIN_KERNEL, OPENING, PARAMETER, HELPER_CALL;
    assert body[c..c + |HELPER_CALL|] == HELPER_CALL;
    SourceSplit();
    var at := LeavingSite().brace + 1;
    assert s[at..at + |body|] == body;
    SliceOfSlice(s, at, at + |body|, c, |HELPER_CALL|);
    assert OccursAt(s, HELPER_CALL, at + c);
  }
}
