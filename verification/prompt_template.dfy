/**
 The "Load Template" button (`loadTemplate`): the fixed analysis prompt with
 eleven `{name}` placeholders, filled in by eleven chained
 `String.prototype.replace` calls, each replacing the FIRST occurrence of one
 placeholder by the input's value, or by a bracketed default when the input is
 empty.
 */
module PromptTemplate {
  import opened JsString
  import opened Form

  // The constants below, joined around the placeholders, are the text of
  // `promptTemplate`. (They are split into short literals for proof speed.)

  const Preamble: string :=
      "Analyze " + "the " + "discrepancy " + "between " + "the " + "ground " +
      "truth " + "bounding " + "box and " + "the " + "XAI-generated " +
      "bounding " + "box for " + "the given " + "coordinates.\n"

  const TechniqueLabel: string :=
      "\nContext:\n" + "- XAI " + "Technique: "

  const CoverageRequest: string :=
      ")\n\nPlease " + "provide a " + "comprehensive " + "analysis " +
      "covering:\n\n"

  const QuantitativeOpening: string :=
      "1. " + "**Quantitative " + "Analysis:**\n   " + "- " + "Calculate " +
      "IoU " + "(Intersection " + "over " + "Union) " + "between " + "the " +
      "bounding " + "boxes\n"

  const QuantitativeRest: string :=
      "   - " + "Measure " + "the " + "center " + "point " + "distance\n   " +
      "- Analyze " + "the area " + "difference\n\n"

  const QuantitativeSection: string := QuantitativeOpening + QuantitativeRest

  const QualitativeOpening: string :=
      "2. " + "**Qualitative " + "Analysis:**\n   " + "- " + "Identify " +
      "potential " + "reasons " + "for the " + "discrepancy\n"

  const QualitativeRest: string :=
      "   - " + "Consider " + "the " + "limitations " + "of the " +
      "specific " + "XAI " + "technique\n   " + "- " + "Evaluate " + "the " +
      "impact of " + "model " + "architecture " + "on XAI " + "performance\n\n"

  const QualitativeSection: string := QualitativeOpening + QualitativeRest

  const TechnicalOpening: string :=
      "3. " + "**Technical " + "Factors:**\n   " + "- How the " + "XAI " +
      "technique " + "works and " + "its " + "inherent " + "limitations\n"

  const TechnicalRest: string :=
      "   - " + "Model-specific " + "considerations " + "(ResNet-50 " + "vs " +
      "U-Net)\n   " + "- Dataset " + "characteristics " + "that " + "might " +
      "affect " + "XAI " + "performance\n\n"

  const TechnicalSection: string := TechnicalOpening + TechnicalRest

  const RecommendationsOpening: string :=
      "4. " + "**Recommendations:**\n" + "   - " + "Suggest " +
      "improvements " + "for " + "better " + "XAI " + "performance\n"

  const RecommendationsRest: string :=
      "   - " + "Alternative " + "XAI " + "techniques " + "that " + "might " +
      "work " + "better\n   " + "- Model " + "architecture " +
      "modifications " + "if " + "applicable\n\n"

  const RecommendationsSection: string := RecommendationsOpening + RecommendationsRest

  const ResearchOpening: string :=
      "5. " + "**Research " + "Insights:**\n   " + "- Relate " + "findings " +
      "to " + "existing " + "literature " + "on XAI " + "limitations\n"

  const ResearchRest: string :=
      "   - " + "Discuss " + "the " + "trade-off " + "between " + "model " +
      "performance " + "and " + "explainability\n\n"

  const ResearchSection: string := ResearchOpening + ResearchRest

  const FinalRequest: string :=
      "Please " + "provide " + "specific, " + "actionable " + "insights " +
      "that can " + "help " + "improve " + "the XAI " + "technique's " +
      "alignment " + "with " + "ground " + "truth " + "annotations."

  /** The fixed text after the last placeholder. */
  const Closing: string :=
    CoverageRequest + QuantitativeSection + QualitativeSection + TechnicalSection
    + RecommendationsSection + ResearchSection + FinalRequest

  /** The twelve stretches of fixed text around the eleven placeholders. */
  const Segments: seq<string> := [
    Preamble + TechniqueLabel,
    "\n- Model Architecture: ",
    "\n- Dataset: ",
    "\n\nGround Truth " + "Bounding Box: (",
    ", ",
    ") to (",
    ", ",
    ")\nXAI Generated " + "Bounding Box: (",
    ", ",
    ") to (",
    ", ",
    Closing
  ]

  /** The order in which the placeholders appear in the template, which is
      also the order in which `loadTemplate` substitutes them. */
  const SubstitutionOrder: seq<Field> := [
    XaiTechnique, ModelArchitecture, Dataset,
    GtX1, GtY1, GtX2, GtY2,
    XaiX1, XaiY1, XaiX2, XaiY2
  ]

  /** The placeholder of an input. */
  function Token(field: Field): (t: string)
    ensures |t| > 1 && t[0] == '{' && t[|t| - 1] == '}'
  {
    match field
    case XaiTechnique => "{xaiTechnique}"
    case ModelArchitecture => "{modelArchitecture}"
    case Dataset => "{dataset}"
    case GtX1 => "{gtX1}"
    case GtY1 => "{gtY1}"
    case GtX2 => "{gtX2}"
    case GtY2 => "{gtY2}"
    case XaiX1 => "{xaiX1}"
    case XaiY1 => "{xaiY1}"
    case XaiX2 => "{xaiX2}"
    case XaiY2 => "{xaiY2}"
  }

  /** What an empty input is shown as: a bracketed upper-case name. */
  function Default(field: Field): (d: string)
    ensures |d| > 2 && d[0] == '[' && d[|d| - 1] == ']'
  {
    match field
    case XaiTechnique => "[XAI_TECHNIQUE]"
    case ModelArchitecture => "[MODEL_ARCHITECTURE]"
    case Dataset => "[DATASET]"
    case GtX1 => "[GT_X1]"
    case GtY1 => "[GT_Y1]"
    case GtX2 => "[GT_X2]"
    case GtY2 => "[GT_Y2]"
    case XaiX1 => "[XAI_X1]"
    case XaiY1 => "[XAI_Y1]"
    case XaiX2 => "[XAI_X2]"
    case XaiY2 => "[XAI_Y2]"
  }

  /** `value || '[DEFAULT]'`: the input's value, or its default when the value
      is the (falsy) empty string. Never empty, and free of `{` and `$`
      whenever the value is. */
  function Substitution(f: Form, field: Field): (r: string)
    ensures Value(f, field) != "" ==> r == Value(f, field)
    ensures Value(f, field) == "" ==> r == Default(field)
    ensures r != ""
    ensures BraceFree(Value(f, field)) ==> BraceFree(r)
    ensures '$' !in Value(f, field) ==> '$' !in r
  {
    DefaultIsPlain(field);
    if Value(f, field) != "" then Value(f, field) else Default(field)
  }

  /** The defaults hold neither `{` nor `$`. */
  lemma DefaultIsPlain(field: Field)
    ensures BraceFree(Default(field)) && '$' !in Default(field)
  {
  }

  /** No input holds a `$`, so no replacement pattern can arise. */
  predicate DollarFree(f: Form) {
    forall field :: '$' !in Value(f, field)
  }

  /** `s` holds no `{`. */
  predicate BraceFree(s: string) {
    '{' !in s
  }

  /** `segs[0] + xs[0] + segs[1] + ... + xs[n - 1] + segs[n]`. */
  function Interleave(segs: seq<string>, xs: seq<string>): string
    requires |segs| == |xs| + 1
    decreases |xs|
  {
    if xs == [] then segs[0]
    else segs[0] + xs[0] + Interleave(segs[1..], xs[1..])
  }

  function Tokens(fields: seq<Field>): (ts: seq<string>)
    ensures |ts| == |fields|
  {
    seq(|fields|, i requires 0 <= i < |fields| => Token(fields[i]))
  }

  function Substitutions(f: Form, fields: seq<Field>): (vs: seq<string>)
    ensures |vs| == |fields|
  {
    seq(|fields|, i requires 0 <= i < |fields| => Substitution(f, fields[i]))
  }

  /** `promptTemplate`: the fixed text with the placeholders in place. */
  const Template: string := Interleave(Segments, Tokens(SubstitutionOrder))

  /** The chain `.replace(Token(fields[0]), ...).replace(Token(fields[1]), ...)`
      applied to `s`. */
  function ReplaceEach(s: string, fields: seq<Field>, f: Form): (r: string)
    requires DollarFree(f)
    ensures (forall i :: 0 <= i < |fields| ==> !Contains(s, Token(fields[i]))) ==> r == s
    decreases |fields|
  {
    if fields == [] then s
    else ReplaceEach(ReplaceFirst(s, Token(fields[0]), Substitution(f, fields[0])), fields[1..], f)
  }

  /** `loadTemplate`: the template with each placeholder replaced in turn.
      When no input contains `{`, this is a simultaneous substitution: the
      fixed text is kept as it is, and each placeholder is replaced by its own
      input's value, or by its bracketed default when the input is empty. */
  function LoadTemplate(f: Form): (r: string)
    requires DollarFree(f)
    ensures (forall field :: BraceFree(Value(f, field))) ==>
              r == Interleave(Segments, Substitutions(f, SubstitutionOrder))
  {
    PlainInputsFillTemplate(f);
    ReplaceEach(Template, SubstitutionOrder, f)
  }

  // ---------------------------------------------------------------------
  // The fixed text holds no `{`.

  lemma PreambleBraceFree() ensures BraceFree(Preamble) { }
  lemma TechniqueLabelBraceFree() ensures BraceFree(TechniqueLabel) { }
  lemma CoverageRequestBraceFree() ensures BraceFree(CoverageRequest) { }
  lemma QuantitativeOpeningBraceFree() ensures BraceFree(QuantitativeOpening) { }
  lemma QuantitativeRestBraceFree() ensures BraceFree(QuantitativeRest) { }
  lemma QualitativeOpeningBraceFree() ensures BraceFree(QualitativeOpening) { }
  lemma QualitativeRestBraceFree() ensures BraceFree(QualitativeRest) { }
  lemma TechnicalOpeningBraceFree() ensures BraceFree(TechnicalOpening) { }
  lemma TechnicalRestBraceFree() ensures BraceFree(TechnicalRest) { }
  lemma RecommendationsOpeningBraceFree() ensures BraceFree(RecommendationsOpening) { }
  lemma RecommendationsRestBraceFree() ensures BraceFree(RecommendationsRest) { }
  lemma ResearchOpeningBraceFree() ensures BraceFree(ResearchOpening) { }
  lemma ResearchRestBraceFree() ensures BraceFree(ResearchRest) { }
  lemma FinalRequestBraceFree() ensures BraceFree(FinalRequest) { }

  lemma QuantitativeSectionBraceFree() ensures BraceFree(QuantitativeSection) {
    QuantitativeOpeningBraceFree();
    QuantitativeRestBraceFree();
  }

  lemma QualitativeSectionBraceFree() ensures BraceFree(QualitativeSection) {
    QualitativeOpeningBraceFree();
    QualitativeRestBraceFree();
  }

  lemma TechnicalSectionBraceFree() ensures BraceFree(TechnicalSection) {
    TechnicalOpeningBraceFree();
    TechnicalRestBraceFree();
  }

  lemma RecommendationsSectionBraceFree() ensures BraceFree(RecommendationsSection) {
    RecommendationsOpeningBraceFree();
    RecommendationsRestBraceFree();
  }

  lemma ResearchSectionBraceFree() ensures BraceFree(ResearchSection) {
    ResearchOpeningBraceFree();
    ResearchRestBraceFree();
  }

  lemma ClosingBraceFree()
    ensures BraceFree(Closing)
  {
    CoverageRequestBraceFree();
    QuantitativeSectionBraceFree();
    QualitativeSectionBraceFree();
    TechnicalSectionBraceFree();
    RecommendationsSectionBraceFree();
    ResearchSectionBraceFree();
    FinalRequestBraceFree();
  }

  lemma OuterSegmentsBraceFree()
    ensures BraceFree(Segments[0]) && BraceFree(Segments[11])
  {
    PreambleBraceFree();
    TechniqueLabelBraceFree();
    ClosingBraceFree();
  }

  lemma InnerSegmentsBraceFree()
    ensures forall j :: 1 <= j < 11 ==> BraceFree(Segments[j])
  {
  }

  /** Every stretch of fixed text is free of `{`. */
  lemma SegmentsBraceFree()
    ensures forall j :: 0 <= j < |Segments| ==> BraceFree(Segments[j])
  {
    OuterSegmentsBraceFree();
    InnerSegmentsBraceFree();
  }

  // ---------------------------------------------------------------------
  // Substitution.

  /** A string without `{` contains no placeholder. */
  lemma BraceFreeHasNoToken(s: string, field: Field)
    requires BraceFree(s)
    ensures !Contains(s, Token(field))
  {
  }

  /** When the text before a placeholder holds no `{`, the first occurrence
      of the placeholder is that one, so `replace` puts the value exactly
      there and leaves everything after it alone. */
  lemma ReplaceAfterBraceFreePrefix(pre: string, t: string, rest: string, v: string)
    requires BraceFree(pre) && |t| > 0 && t[0] == '{'
    requires '$' !in v
    ensures ReplaceFirst(pre + t + rest, t, v) == pre + v + rest
  {
    var s := pre + t + rest;
    assert OccursAt(s, t, |pre|) by {
      assert s[|pre|..|pre| + |t|] == t;
    }
    forall j | 0 <= j < |pre| ensures !OccursAt(s, t, j) {
      assert s[j] == pre[j];
    }
    var i := IndexOf(s, t).value;
    assert i == |pre|;
    assert s[..i] == pre;
    assert s[i + |t|..] == rest;
  }

  lemma TokensTail(fields: seq<Field>)
    requires fields != []
    ensures Tokens(fields)[0] == Token(fields[0])
    ensures Tokens(fields)[1..] == Tokens(fields[1..])
  {
  }

  lemma SubstitutionsTail(f: Form, fields: seq<Field>)
    requires fields != []
    ensures Substitutions(f, fields)[0] == Substitution(f, fields[0])
    ensures Substitutions(f, fields)[1..] == Substitutions(f, fields[1..])
  {
  }

  /** One link of the chain: the first placeholder of the remaining text is
      replaced, and the text before it grows by one segment and one value. */
  lemma ReplaceNextSlot(prefix: string, segs: seq<string>, fields: seq<Field>, f: Form, suffix: string)
    requires DollarFree(f)
    requires |segs| == |fields| + 1 && fields != []
    requires BraceFree(prefix + segs[0])
    ensures ReplaceFirst(prefix + Interleave(segs, Tokens(fields)) + suffix,
                         Token(fields[0]), Substitution(f, fields[0]))
         == (prefix + segs[0] + Substitution(f, fields[0]))
            + Interleave(segs[1..], Tokens(fields[1..])) + suffix
  {
    var t, v := Token(fields[0]), Substitution(f, fields[0]);
    assert '$' !in Value(f, fields[0]);
    TokensTail(fields);
    var restT := Interleave(segs[1..], Tokens(fields[1..]));
    assert Interleave(segs, Tokens(fields)) == segs[0] + t + restT;
    Regroup(prefix, segs[0], t, restT, suffix);
    ReplaceAfterBraceFreePrefix(prefix + segs[0], t, restT + suffix, v);
    Regroup(prefix, segs[0], v, restT, suffix);
  }

  lemma Regroup(a: string, b: string, c: string, d: string, e: string)
    ensures a + (b + c + d) + e == (a + b) + c + (d + e)
    ensures (a + b) + c + (d + e) == (a + b + c) + d + e
  {
  }

  /** The chain of replacements fills the placeholders one after another:
      applied to the text `segs[0] + Token(fields[0]) + segs[1] + ...`
      (with any text before and after it), it yields
      `segs[0] + Substitution(fields[0]) + segs[1] + ...`, provided neither
      the fixed text nor the inserted values contain `{`. */
  lemma {:induction false} ReplaceEachFillsSlots(
    prefix: string, segs: seq<string>, fields: seq<Field>, f: Form, suffix: string)
    requires DollarFree(f)
    requires |segs| == |fields| + 1
    requires BraceFree(prefix)
    requires forall j :: 0 <= j < |fields| ==> BraceFree(segs[j])
    requires forall j :: 0 <= j < |fields| ==> BraceFree(Value(f, fields[j]))
    ensures ReplaceEach(prefix + Interleave(segs, Tokens(fields)) + suffix, fields, f)
         == prefix + Interleave(segs, Substitutions(f, fields)) + suffix
    decreases |fields|
  {
    if fields != [] {
      var v := Substitution(f, fields[0]);
      assert BraceFree(segs[0]) && BraceFree(Value(f, fields[0]));
      ReplaceNextSlot(prefix, segs, fields, f, suffix);
      var prefix' := prefix + segs[0] + v;
      ReplaceEachFillsSlots(prefix', segs[1..], fields[1..], f, suffix);
      SubstitutionsTail(f, fields);
      var restV := Interleave(segs[1..], Substitutions(f, fields[1..]));
      assert Interleave(segs, Substitutions(f, fields)) == segs[0] + v + restV;
      Regroup(prefix, segs[0], v, restV, suffix);
    }
  }

  /** The chain applied to a whole template. */
  lemma ReplaceEachFillsTemplate(segs: seq<string>, fields: seq<Field>, f: Form)
    requires DollarFree(f)
    requires |segs| == |fields| + 1
    requires forall j :: 0 <= j < |fields| ==> BraceFree(segs[j])
    requires forall j :: 0 <= j < |fields| ==> BraceFree(Value(f, fields[j]))
    ensures ReplaceEach(Interleave(segs, Tokens(fields)), fields, f)
         == Interleave(segs, Substitutions(f, fields))
  {
    ReplaceEachFillsFront(segs, fields, f, "");
    EmptySuffix(Interleave(segs, Tokens(fields)));
    EmptySuffix(Interleave(segs, Substitutions(f, fields)));
  }

  lemma EmptySuffix(a: string)
    ensures a + "" == a
  {
  }

  /** The replacement chain on the template, with inputs free of `{`. */
  lemma PlainInputsFillTemplate(f: Form)
    requires DollarFree(f)
    ensures (forall field :: BraceFree(Value(f, field))) ==>
              (ReplaceEach(Template, SubstitutionOrder, f)
               == Interleave(Segments, Substitutions(f, SubstitutionOrder)))
  {
    if forall field :: BraceFree(Value(f, field)) {
      SegmentsBraceFree();
      ReplaceEachFillsTemplate(Segments, SubstitutionOrder, f);
    }
  }

  /** Under the same condition no placeholder survives in the result. */
  lemma LoadTemplateLeavesNoPlaceholder(f: Form, field: Field)
    requires DollarFree(f)
    requires forall field :: BraceFree(Value(f, field))
    ensures !Contains(LoadTemplate(f), Token(field))
  {
    SegmentsBraceFree();
    FilledTemplateHasNoToken(Segments, SubstitutionOrder, f, field);
  }

  lemma FilledTemplateHasNoToken(segs: seq<string>, fields: seq<Field>, f: Form, field: Field)
    requires DollarFree(f)
    requires |segs| == |fields| + 1
    requires forall j :: 0 <= j < |segs| ==> BraceFree(segs[j])
    requires forall field :: BraceFree(Value(f, field))
    ensures !Contains(ReplaceEach(Interleave(segs, Tokens(fields)), fields, f), Token(field))
  {
    ReplaceEachFillsTemplate(segs, fields, f);
    InterleaveBraceFree(segs, Substitutions(f, fields));
    BraceFreeHasNoToken(Interleave(segs, Substitutions(f, fields)), field);
  }

  lemma {:induction false} InterleaveBraceFree(segs: seq<string>, xs: seq<string>)
    requires |segs| == |xs| + 1
    requires forall j :: 0 <= j < |segs| ==> BraceFree(segs[j])
    requires forall j :: 0 <= j < |xs| ==> BraceFree(xs[j])
    ensures BraceFree(Interleave(segs, xs))
    decreases |xs|
  {
    if xs != [] {
      InterleaveBraceFree(segs[1..], xs[1..]);
    }
  }

  // ---------------------------------------------------------------------
  // The replacements happen one after another, not all at once.

  /** Cutting a template after its `k`-th placeholder. */
  lemma {:induction false} InterleaveSplit(segs: seq<string>, xs: seq<string>, k: nat)
    requires |segs| == |xs| + 1 && k < |xs|
    ensures Interleave(segs, xs)
         == Interleave(segs[..k + 1], xs[..k]) + xs[k] + Interleave(segs[k + 1..], xs[k + 1..])
    decreases k
  {
    if k > 0 {
      InterleaveSplit(segs[1..], xs[1..], k - 1);
      assert segs[..k + 1][1..] == segs[1..][..k];
      assert xs[..k][1..] == xs[1..][..k - 1];
      assert segs[1..][k..] == segs[k + 1..];
      assert xs[1..][k..] == xs[k + 1..];
    }
  }

  /** A chain of replacements is its first `k` links followed by the rest. */
  lemma {:induction false} ReplaceEachSplit(s: string, fields: seq<Field>, k: nat, f: Form)
    requires DollarFree(f) && k <= |fields|
    ensures ReplaceEach(s, fields, f) == ReplaceEach(ReplaceEach(s, fields[..k], f), fields[k..], f)
    decreases k
  {
    if k == 0 {
      assert fields[..0] == [] && fields[0..] == fields;
    } else {
      var s' := ReplaceFirst(s, Token(fields[0]), Substitution(f, fields[0]));
      var front := fields[..k];
      assert front[0] == fields[0] && front[1..] == fields[1..][..k - 1];
      ReplaceEachStep(s, front, f);
      ReplaceEachStep(s, fields, f);
      ReplaceEachSplit(s', fields[1..], k - 1, f);
      assert fields[1..][k - 1..] == fields[k..];
    }
  }

  /** One link of the chain. */
  lemma ReplaceEachStep(s: string, fields: seq<Field>, f: Form)
    requires DollarFree(f) && fields != []
    ensures ReplaceEach(s, fields, f)
         == ReplaceEach(ReplaceFirst(s, Token(fields[0]), Substitution(f, fields[0])), fields[1..], f)
  {
  }

  /** A template with a single placeholder. */
  lemma InterleaveOne(segs: seq<string>, xs: seq<string>)
    requires |segs| == 2 && |xs| == 1
    ensures Interleave(segs, xs) == segs[0] + xs[0] + segs[1]
  {
    assert Interleave(segs[1..], xs[1..]) == segs[1];
  }

  /** The part of a template after its second-to-last placeholder. */
  lemma InterleaveLastSlot(segs: seq<string>, xs: seq<string>, n: nat)
    requires |xs| == n + 2 && |segs| == n + 3
    ensures Interleave(segs[n + 1..], xs[n + 1..]) == segs[n + 1] + xs[n + 1] + segs[n + 2]
  {
    var a, b := segs[n + 1..], xs[n + 1..];
    assert a[0] == segs[n + 1] && a[1] == segs[n + 2] && b[0] == xs[n + 1];
    InterleaveOne(a, b);
  }

  lemma Associate(a: string, b: string, c: string)
    ensures a + b + c == a + (b + c)
  {
  }

  /** A template cut just before its last two placeholders. */
  lemma InterleaveLastTwo(segs: seq<string>, xs: seq<string>, n: nat)
    requires |xs| == n + 2 && |segs| == n + 3
    ensures Interleave(segs, xs)
         == Interleave(segs[..n + 1], xs[..n]) + (xs[n] + (segs[n + 1] + xs[n + 1] + segs[n + 2]))
  {
    InterleaveSplit(segs, xs, n);
    InterleaveLastSlot(segs, xs, n);
    Associate(Interleave(segs[..n + 1], xs[..n]), xs[n], segs[n + 1] + xs[n + 1] + segs[n + 2]);
  }

  /** The last two replacements when the value of the second-to-last input
      is the last placeholder. */
  lemma LastTwoShifted(filled: string, rest: string, last: seq<Field>, f: Form)
    requires DollarFree(f) && BraceFree(filled)
    requires |last| == 2 && Value(f, last[0]) == Token(last[1])
    ensures ReplaceEach(filled + (Token(last[0]) + rest), last, f)
         == filled + Substitution(f, last[1]) + rest
  {
    var a, b := last[0], last[1];
    var v := Substitution(f, b);
    assert '$' !in Value(f, b);
    assert Substitution(f, a) == Token(b);
    assert filled + (Token(a) + rest) == filled + Token(a) + rest;
    ReplaceAfterBraceFreePrefix(filled, Token(a), rest, Token(b));
    ReplaceAfterBraceFreePrefix(filled, Token(b), rest, v);
    assert last[1..] == [b] && [b][0] == b && [b][1..] == [];
    assert ReplaceEach(filled + Token(a) + rest, last, f)
        == ReplaceEach(filled + Token(b) + rest, [b], f);
    assert ReplaceEach(filled + Token(b) + rest, [b], f)
        == ReplaceEach(filled + v + rest, [], f);
  }

  lemma TokensPrefix(fields: seq<Field>, n: nat)
    requires n <= |fields|
    ensures Tokens(fields)[..n] == Tokens(fields[..n])
  {
  }

  /** The chain applied to a template followed by further text. */
  lemma ReplaceEachFillsFront(segs: seq<string>, fields: seq<Field>, f: Form, suffix: string)
    requires DollarFree(f)
    requires |segs| == |fields| + 1
    requires forall j :: 0 <= j < |fields| ==> BraceFree(segs[j])
    requires forall j :: 0 <= j < |fields| ==> BraceFree(Value(f, fields[j]))
    ensures ReplaceEach(Interleave(segs, Tokens(fields)) + suffix, fields, f)
         == Interleave(segs, Substitutions(f, fields)) + suffix
  {
    ReplaceEachFillsSlots("", segs, fields, f, suffix);
    EmptyPrefix(Interleave(segs, Tokens(fields)), suffix);
    EmptyPrefix(Interleave(segs, Substitutions(f, fields)), suffix);
  }

  lemma EmptyPrefix(a: string, b: string)
    ensures "" + a + b == a + b
  {
  }

  /** The first `n` replacements of a template with `n + 2` placeholders,
      when the first `n` inputs hold no `{`. */
  lemma FirstSlotsFilled(segs: seq<string>, fields: seq<Field>, f: Form, n: nat, tail: string)
    requires DollarFree(f)
    requires |fields| == n + 2 && |segs| == n + 3
    requires forall j :: 0 <= j < |segs| ==> BraceFree(segs[j])
    requires forall j :: 0 <= j < n ==> BraceFree(Value(f, fields[j]))
    ensures ReplaceEach(Interleave(segs[..n + 1], Tokens(fields[..n])) + tail, fields[..n], f)
         == Interleave(segs[..n + 1], Substitutions(f, fields[..n])) + tail
    ensures BraceFree(Interleave(segs[..n + 1], Substitutions(f, fields[..n])))
  {
    var segs', fields' := segs[..n + 1], fields[..n];
    assert forall j :: 0 <= j < |fields'| ==> segs'[j] == segs[j] && fields'[j] == fields[j];
    ReplaceEachFillsFront(segs', fields', f, tail);
    InterleaveBraceFree(segs', Substitutions(f, fields'));
  }

  /** A template of placeholders cut just before its last two. */
  lemma TemplateLastTwo(segs: seq<string>, fields: seq<Field>, n: nat)
    requires |fields| == n + 2 && |segs| == n + 3
    ensures Interleave(segs, Tokens(fields))
         == Interleave(segs[..n + 1], Tokens(fields[..n]))
            + (Token(fields[n]) + (segs[n + 1] + Token(fields[n + 1]) + segs[n + 2]))
  {
    var ts := Tokens(fields);
    InterleaveLastTwo(segs, ts, n);
    TokensPrefix(fields, n);
  }

  /** In any template of this shape, an input whose value is the next
      placeholder pushes the next value into its own slot and leaves the
      next placeholder in the text. */
  lemma ShiftedLastSlot(segs: seq<string>, fields: seq<Field>, f: Form, n: nat)
    requires DollarFree(f)
    requires |fields| == n + 2 && |segs| == n + 3
    requires forall j :: 0 <= j < |segs| ==> BraceFree(segs[j])
    requires forall j :: 0 <= j < n ==> BraceFree(Value(f, fields[j]))
    requires Value(f, fields[n]) == Token(fields[n + 1])
    ensures ReplaceEach(Interleave(segs, Tokens(fields)), fields, f)
         == Interleave(segs[..n + 1], Substitutions(f, fields[..n]))
            + Substitution(f, fields[n + 1]) + (segs[n + 1] + Token(fields[n + 1]) + segs[n + 2])
  {
    var a, b := fields[n], fields[n + 1];
    var rest := segs[n + 1] + Token(b) + segs[n + 2];
    var filled := Interleave(segs[..n + 1], Substitutions(f, fields[..n]));
    var last := fields[n..];
    assert last[0] == a && last[1] == b;
    TemplateLastTwo(segs, fields, n);
    FirstSlotsThenRest(segs, fields, f, n, Token(a) + rest);
    LastTwoShifted(filled, rest, last, f);
  }

  /** The whole chain on a template of `n + 2` placeholders is the first `n`
      replacements, which fill their slots, followed by the last two. */
  lemma FirstSlotsThenRest(segs: seq<string>, fields: seq<Field>, f: Form, n: nat, tail: string)
    requires DollarFree(f)
    requires |fields| == n + 2 && |segs| == n + 3
    requires forall j :: 0 <= j < |segs| ==> BraceFree(segs[j])
    requires forall j :: 0 <= j < n ==> BraceFree(Value(f, fields[j]))
    ensures ReplaceEach(Interleave(segs[..n + 1], Tokens(fields[..n])) + tail, fields, f)
         == ReplaceEach(Interleave(segs[..n + 1], Substitutions(f, fields[..n])) + tail, fields[n..], f)
    ensures BraceFree(Interleave(segs[..n + 1], Substitutions(f, fields[..n])))
  {
    ReplaceEachSplit(Interleave(segs[..n + 1], Tokens(fields[..n])) + tail, fields, n, f);
    FirstSlotsFilled(segs, fields, f, n, tail);
  }

  /** An input whose value is a later placeholder is not kept as typed: when
      the X2 coordinate of the XAI box reads `{xaiY2}`, the final
      replacement of `{xaiY2}` finds that copy first, so the Y2 value lands in
      the X2 slot and the real `{xaiY2}` placeholder stays in the prompt. */
  lemma LoadTemplateIsSequential(f: Form)
    requires DollarFree(f)
    requires Value(f, XaiX2) == Token(XaiY2)
    requires forall field :: field != XaiX2 ==> BraceFree(Value(f, field))
    ensures LoadTemplate(f)
         == Interleave(Segments[..10], Substitutions(f, SubstitutionOrder[..9]))
            + Substitution(f, XaiY2) + (Segments[10] + Token(XaiY2) + Segments[11])
  {
    SegmentsBraceFree();
    assert forall j :: 0 <= j < 9 ==> SubstitutionOrder[j] != XaiX2;
    ShiftedLastSlot(Segments, SubstitutionOrder, f, 9);
  }

  /** ... and so the placeholder `{xaiY2}` is still in the prompt. */
  lemma LoadTemplateKeepsPlaceholder(f: Form)
    requires DollarFree(f)
    requires Value(f, XaiX2) == Token(XaiY2)
    requires forall field :: field != XaiX2 ==> BraceFree(Value(f, field))
    ensures Contains(LoadTemplate(f), Token(XaiY2))
  {
    SegmentsBraceFree();
    assert forall j :: 0 <= j < 9 ==> SubstitutionOrder[j] != XaiX2;
    ShiftedKeepsToken(Segments, SubstitutionOrder, f, 9);
  }

  lemma ShiftedKeepsToken(segs: seq<string>, fields: seq<Field>, f: Form, n: nat)
    requires DollarFree(f)
    requires |fields| == n + 2 && |segs| == n + 3
    requires forall j :: 0 <= j < |segs| ==> BraceFree(segs[j])
    requires forall j :: 0 <= j < n ==> BraceFree(Value(f, fields[j]))
    requires Value(f, fields[n]) == Token(fields[n + 1])
    ensures Contains(ReplaceEach(Interleave(segs, Tokens(fields)), fields, f), Token(fields[n + 1]))
  {
    ShiftedLastSlot(segs, fields, f, n);
    ContainsMiddle(ReplaceEach(Interleave(segs, Tokens(fields)), fields, f),
                   Interleave(segs[..n + 1], Substitutions(f, fields[..n])),
                   Substitution(f, fields[n + 1]), segs[n + 1], Token(fields[n + 1]), segs[n + 2]);
  }

  lemma ContainsMiddle(s: string, a: string, b: string, c: string, t: string, d: string)
    requires s == a + b + (c + t + d)
    ensures Contains(s, t)
  {
    var at := |a| + |b| + |c|;
    assert s[at..at + |t|] == t;
    assert OccursAt(s, t, at);
  }
}
