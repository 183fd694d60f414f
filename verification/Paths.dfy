/** Field paths such as `user.tags[*0].name`, and why the rendered text of a
    path determines the path when keys are clean. */
module Paths {
  import opened Texts

  datatype Step = Key(k: string) | Index(i: nat)

  datatype Path = End | Then(step: Step, rest: Path)

  const SEPARATORS: set<char> := {'.', '['}

  /** A clean key is nonempty and holds no path separator. */
  predicate CleanKey(k: string) { k != "" && Free(k, SEPARATORS) }

  predicate CleanStep(s: Step) { s.Key? ==> CleanKey(s.k) }

  predicate CleanPath(p: Path) {
    p.Then? ==> CleanStep(p.step) && CleanPath(p.rest)
  }

  /** One more step written after a prefix, as both flatteners write it. */
  function Extend(prefix: string, step: Step): string {
    match step
    case Key(k) => if prefix == "" then k else prefix + "." + k
    case Index(i) => prefix + "[*" + Decimal(i) + "]"
  }

  /** The text a flattener has built when it has followed `p` from `prefix`. */
  function Render(prefix: string, p: Path): string
    decreases p
  {
    match p
    case End => prefix
    case Then(s, rest) => Render(Extend(prefix, s), rest)
  }

  const ROOT: string := "[root]"

  /** The dictionary slot used for a prefix: the root has a name of its own. */
  function Slot(prefix: string): string {
    if prefix == "" then ROOT else prefix
  }

  /** How a path reads: keys after dots, positions in `[*` and `]`, and the root by its name. */
  lemma {:induction false} PathsRead(p: Path, k: string, i: nat)
    requires Render("", p) != ""
    ensures Slot("") == "[root]" && Slot(Render("", p)) == Render("", p)
    ensures Render("", Then(Key(k), End)) == k && Render("", Then(Index(i), End)) == "[*" + Decimal(i) + "]"
    ensures Render(Render("", p), Then(Key(k), End)) == Render("", p) + "." + k
    ensures Render(Render("", p), Then(Index(i), End)) == Render("", p) + ("[*" + Decimal(i) + "]")
  {
    assert Extend("", Index(i)) == "" + "[*" + Decimal(i) + "]" == "[*" + Decimal(i) + "]";
    assert Extend(Render("", p), Index(i)) == Render("", p) + ("[*" + Decimal(i) + "]");
  }

  // ---- Reading a rendered path from the left ----

  function Mark(s: Step): char { if s.Key? then '.' else '[' }

  /** What a step writes after its mark. */
  function Body(s: Step): string {
    match s
    case Key(k) => k
    case Index(i) => "*" + Decimal(i) + "]"
  }

  /** What a path writes after a nonempty prefix. */
  function Suffix(p: Path): string {
    match p
    case End => ""
    case Then(s, rest) => [Mark(s)] + (Body(s) + Suffix(rest))
  }

  lemma {:induction false} BodyFacts(s: Step)
    requires CleanStep(s)
    ensures Free(Body(s), SEPARATORS) && Body(s) != ""
  {
  }

  lemma {:induction false} BodyInjective(s: Step, t: Step)
    requires Mark(s) == Mark(t) && Body(s) == Body(t)
    ensures s == t
  {
    if s.Index? {
      assert Body(s)[1..|Body(s)| - 1] == Decimal(s.i);
      assert Body(t)[1..|Body(t)| - 1] == Decimal(t.i);
      DecimalInjective(s.i, t.i);
    }
  }

  lemma {:induction false} ExtendShape(prefix: string, s: Step)
    ensures Extend(prefix, s) == if prefix == "" && s.Key? then s.k else prefix + ([Mark(s)] + Body(s))
  {
  }

  lemma {:induction false} Concat3(a: string, b: string, c: string)
    ensures (a + b) + c == a + (b + c)
  {
  }

  lemma {:induction false} RenderSuffix(prefix: string, p: Path)
    requires prefix != ""
    ensures Render(prefix, p) == prefix + Suffix(p)
    decreases p
  {
    if p.Then? {
      var m, b, x := [Mark(p.step)], Body(p.step), Suffix(p.rest);
      ExtendShape(prefix, p.step);
      RenderSuffix(prefix + (m + b), p.rest);
      Concat3(prefix, m + b, x);
      Concat3(m, b, x);
    }
  }

  /** A suffix is empty or starts with a separator. */
  predicate Marked(x: string) { x == "" || x[0] in SEPARATORS }

  /** A separator-free head splits off a marked rest in one way only. */
  lemma {:induction false} HeadSplits(a: string, x: string, b: string, y: string)
    requires Free(a, SEPARATORS) && Free(b, SEPARATORS) && Marked(x) && Marked(y)
    requires a + x == b + y
    ensures a == b && x == y
  {
    var s, t := a + x, b + y;
    assert forall i | 0 <= i < |a| :: s[i] !in SEPARATORS;
    assert forall i | 0 <= i < |b| :: t[i] !in SEPARATORS;
    assert x != "" ==> s[|a|] in SEPARATORS;
    assert y != "" ==> t[|b|] in SEPARATORS;
    assert |a| == |b|;
    assert (a + x)[..|a|] == a && (b + y)[..|b|] == b;
    assert (a + x)[|a|..] == x && (b + y)[|b|..] == y;
  }

  lemma {:induction false} SuffixInjective(p: Path, q: Path)
    requires CleanPath(p) && CleanPath(q) && Suffix(p) == Suffix(q)
    ensures p == q
    decreases p
  {
    if p.Then? && q.Then? {
      assert Suffix(p)[0] == Mark(p.step) && Suffix(q)[0] == Mark(q.step);
      assert Suffix(p)[1..] == Body(p.step) + Suffix(p.rest);
      assert Suffix(q)[1..] == Body(q.step) + Suffix(q.rest);
      BodyFacts(p.step);
      BodyFacts(q.step);
      HeadSplits(Body(p.step), Suffix(p.rest), Body(q.step), Suffix(q.rest));
      BodyInjective(p.step, q.step);
      SuffixInjective(p.rest, q.rest);
    }
  }

  /** From the root, the first step is written without its dot. */
  function FromRoot(p: Path): string
    requires p.Then?
  {
    if p.step.Key? then p.step.k + Suffix(p.rest) else Suffix(p)
  }

  lemma {:induction false} RenderRootIndex(i: nat, rest: Path)
    ensures Render("", Then(Index(i), rest)) == Suffix(Then(Index(i), rest))
  {
    var b := Body(Index(i));
    ExtendShape("", Index(i));
    assert Extend("", Index(i)) == "[" + b;
    RenderSuffix("[" + b, rest);
    Concat3("[", b, Suffix(rest));
  }

  lemma {:induction false} RenderRoot(p: Path)
    requires CleanPath(p) && p.Then?
    ensures Render("", p) == FromRoot(p)
  {
    match p.step
    case Key(k) => RenderSuffix(k, p.rest);
    case Index(i) => RenderRootIndex(i, p.rest);
  }

  lemma {:induction false} RootDiffers(p: Path)
    requires CleanPath(p) && p.Then?
    ensures Render("", p) != "" && Render("", p) != ROOT
    ensures p.step.Index? <==> Render("", p)[0] in SEPARATORS
  {
    RenderRoot(p);
    if p.step.Key? {
      assert Render("", p)[0] == p.step.k[0] && ROOT[0] == '[';
    } else {
      assert Suffix(p)[1] == Body(p.step)[0] == '*' && ROOT[1] == 'r';
    }
  }

  lemma {:induction false} RootInjective(p: Path, q: Path)
    requires CleanPath(p) && CleanPath(q) && p.Then? && q.Then? && Render("", p) == Render("", q)
    ensures p == q
  {
    RenderRoot(p);
    RenderRoot(q);
    RootDiffers(p);
    RootDiffers(q);
    if p.step.Key? {
      HeadSplits(p.step.k, Suffix(p.rest), q.step.k, Suffix(q.rest));
      SuffixInjective(p.rest, q.rest);
    } else {
      SuffixInjective(p, q);
    }
  }

  /** Rendering is injective on clean paths: no two of them share a slot. */
  lemma {:induction false} SlotInjective(prefix: string, p: Path, q: Path)
    requires CleanPath(p) && CleanPath(q)
    requires Slot(Render(prefix, p)) == Slot(Render(prefix, q))
    ensures p == q
  {
    if prefix != "" {
      RenderSuffix(prefix, p);
      RenderSuffix(prefix, q);
      assert (prefix + Suffix(p))[|prefix|..] == Suffix(p);
      assert (prefix + Suffix(q))[|prefix|..] == Suffix(q);
      SuffixInjective(p, q);
    } else if p.Then? && q.Then? {
      RootDiffers(p);
      RootDiffers(q);
      RootInjective(p, q);
    } else if p.Then? {
      RootDiffers(p);
    } else if q.Then? {
      RootDiffers(q);
    }
  }
}
