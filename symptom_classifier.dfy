/**
 * Turning the text classifier's answer into the question the guided quiz
 * starts from. The network call itself is not modelled: its outcome is a
 * parameter, `Some(text)` for the text the service answered with and
 * `None` for any failure (connection error, error status, malformed body,
 * missing field), all of which app.py catches and turns into the
 * fallback to the root question.
 */
module SymptomClassifier {
  import opened Wrappers
  import Tree = DecisionTree

  // ----- Whitespace trimming (Python's str.strip() without arguments) -----

  /** The characters Python's `str.isspace` accepts, which `strip()` removes. */
  predicate IsSpace(c: char) {
    c == ' ' || ('\t' <= c <= '\r') || ('\U{1C}' <= c <= '\U{1F}')
    || c == '\U{85}' || c == '\U{A0}' || c == '\U{1680}'
    || ('\U{2000}' <= c <= '\U{200A}') || c == '\U{2028}' || c == '\U{2029}'
    || c == '\U{202F}' || c == '\U{205F}' || c == '\U{3000}'
  }

  predicate AllSpace(s: string) {
    forall i :: 0 <= i < |s| ==> IsSpace(s[i])
  }

  /** Neither end of `s` is whitespace. */
  predicate Trimmed(s: string) {
    s == [] || (!IsSpace(s[0]) && !IsSpace(s[|s| - 1]))
  }

  /** `s` without its leading whitespace. */
  function StripLeading(s: string): (r: string)
    ensures |r| <= |s| && r == s[|s| - |r|..]
    ensures AllSpace(s[..|s| - |r|])
    ensures r == [] || !IsSpace(r[0])
    decreases |s|
  {
    if s != [] && IsSpace(s[0]) then StripLeading(s[1..]) else s
  }

  /** `s` without its trailing whitespace. */
  function StripTrailing(s: string): (r: string)
    ensures |r| <= |s| && r == s[..|r|]
    ensures AllSpace(s[|r|..])
    ensures r == [] || !IsSpace(r[|r| - 1])
    decreases |s|
  {
    if s != [] && IsSpace(s[|s| - 1]) then StripTrailing(s[..|s| - 1]) else s
  }

  /** Python's `s.strip()`. */
  function Strip(s: string): string {
    StripTrailing(StripLeading(s))
  }

  /** What `Strip` keeps has no whitespace at either end. */
  lemma StripTrimmed(s: string)
    ensures Trimmed(Strip(s))
  {
    var lead := StripLeading(s);
    var r := StripTrailing(lead);
    if r != [] {
      assert r[0] == lead[0];
    }
  }

  /** Stripping whitespace in front of a text that starts with a
      non-whitespace character gives that text. */
  lemma {:induction false} StripLeadingPadded(pad: string, x: string)
    requires AllSpace(pad)
    requires x == [] || !IsSpace(x[0])
    ensures StripLeading(pad + x) == x
    decreases |pad|
  {
    if pad != [] {
      assert (pad + x)[1..] == pad[1..] + x;
      StripLeadingPadded(pad[1..], x);
    }
  }

  /** Stripping whitespace after a text that ends with a non-whitespace
      character gives that text. */
  lemma {:induction false} StripTrailingPadded(x: string, pad: string)
    requires AllSpace(pad)
    requires x == [] || !IsSpace(x[|x| - 1])
    ensures StripTrailing(x + pad) == x
    decreases |pad|
  {
    if pad != [] {
      var shorter := pad[..|pad| - 1];
      assert (x + pad)[..|x + pad| - 1] == x + shorter;
      StripTrailingPadded(x, shorter);
    }
  }

  /** Padding a non-empty trimmed text with whitespace on both sides and
      stripping it gives the text back. */
  lemma StripPadded(before: string, x: string, after: string)
    requires AllSpace(before) && AllSpace(after)
    requires x != [] && Trimmed(x)
    ensures Strip(before + x + after) == x
  {
    assert before + x + after == before + (x + after);
    StripLeadingPadded(before, x + after);
    StripTrailingPadded(x, after);
  }

  /** Stripping twice is stripping once. */
  lemma StripIdempotent(s: string)
    ensures Strip(Strip(s)) == Strip(s)
  {
    StripTrimmed(s);
    var r := Strip(s);
    if r != [] {
      StripPadded([], r, []);
      assert [] + r + [] == r;
    }
  }

  // ----- The classifier's categories -----

  /** The keys of `diagnosis_categories`. */
  datatype Category =
    | CardiacArrest | BreathingEmergency | SevereBleeding | HeartAttack
    | Stroke | Seizure | AllergicReaction

  /** The label the classifier is asked to answer with. */
  function Label(c: Category): string {
    match c
    case CardiacArrest => "Cardiac Arrest"
    case BreathingEmergency => "Breathing Emergency"
    case SevereBleeding => "Severe Bleeding"
    case HeartAttack => "Heart Attack"
    case Stroke => "Stroke"
    case Seizure => "Seizure"
    case AllergicReaction => "Allergic Reaction"
  }

  /** The values of `diagnosis_categories`: the diagnosis each category
      stands for. The entry-point resolution never returns them. */
  function CategoryLeaf(c: Category): string {
    match c
    case CardiacArrest => "diag_unconscious_not_breathing"
    case BreathingEmergency => "diag_unconscious_breathing"
    case SevereBleeding => "diag_bleeding"
    case HeartAttack => "diag_heart_attack"
    case Stroke => "diag_stroke"
    case Seizure => "diag_seizure"
    case AllergicReaction => "diag_allergic_reaction"
  }

  /** `m in diagnosis_categories`: exact, case-sensitive match on a label. */
  function FindCategory(m: string): (r: Option<Category>)
    ensures r.Some? ==> Label(r.value) == m
  {
    if m == Label(CardiacArrest) then Some(CardiacArrest)
    else if m == Label(BreathingEmergency) then Some(BreathingEmergency)
    else if m == Label(SevereBleeding) then Some(SevereBleeding)
    else if m == Label(HeartAttack) then Some(HeartAttack)
    else if m == Label(Stroke) then Some(Stroke)
    else if m == Label(Seizure) then Some(Seizure)
    else if m == Label(AllergicReaction) then Some(AllergicReaction)
    else None
  }

  /** Every label is found again by the lookup. */
  lemma LabelFound(c: Category)
    ensures FindCategory(Label(c)) == Some(c)
  {
    match c
    case CardiacArrest =>
    case BreathingEmergency =>
    case SevereBleeding =>
    case HeartAttack =>
    case Stroke =>
    case Seizure =>
    case AllergicReaction =>
  }

  /** The if/elif chain that maps a matched label to a question key, and
      the fall-through to the root after it. */
  function LabelChain(m: string): string {
    if m == "Cardiac Arrest" then "q1_a"
    else if m == "Breathing Emergency" then "q1_b"
    else if m == "Severe Bleeding" then "q2_a"
    else if m == "Heart Attack" then "q3_a"
    else if m == "Stroke" then "q4_a"
    else if m == "Seizure" then "q5_a"
    else if m == "Allergic Reaction" then "q6_a"
    else "start"
  }

  /** The key of the question the quiz starts from, given the classifier's
      answer (`None` when the call failed in any way). */
  function ResolveEntry(response: Option<string>): (key: string)
    ensures Tree.FindNode(key).Some?
  {
    Tree.NodeKeyFound(Tree.Root);
    match response
    case None => "start"
    case Some(text) =>
      var m := Strip(text);
      ChainLandsOnQuestion(m);
      if FindCategory(m).Some? then LabelChain(m) else "start"
  }

  /** Every outcome of the chain, the fall-through included, is a key of
      `questions`. */
  lemma ChainLandsOnQuestion(m: string)
    ensures Tree.FindNode(LabelChain(m)).Some?
  {
    if m == "Cardiac Arrest" {
      Tree.NodeKeyFound(Tree.Q1a);
    } else if m == "Breathing Emergency" {
      Tree.NodeKeyFound(Tree.Q1b);
    } else if m == "Severe Bleeding" {
      Tree.NodeKeyFound(Tree.Q2a);
    } else if m == "Heart Attack" {
      Tree.NodeKeyFound(Tree.Q3a);
    } else if m == "Stroke" {
      Tree.NodeKeyFound(Tree.Q4a);
    } else if m == "Seizure" {
      Tree.NodeKeyFound(Tree.Q5a);
    } else if m == "Allergic Reaction" {
      Tree.NodeKeyFound(Tree.Q6a);
    } else {
      Tree.NodeKeyFound(Tree.Start);
    }
  }

  /** Each category as one (label, entry question) pair: the question the
      quiz should start from for that category. */
  function EntryNode(c: Category): Tree.NodeId {
    match c
    case CardiacArrest => Tree.Q1a
    case BreathingEmergency => Tree.Q1b
    case SevereBleeding => Tree.Q2a
    case HeartAttack => Tree.Q3a
    case Stroke => Tree.Q4a
    case Seizure => Tree.Q5a
    case AllergicReaction => Tree.Q6a
  }

  /** The chain handles every key of `diagnosis_categories` (its
      fall-through is never taken for a label), sends it to that category's
      entry question, and that question offers the category's own diagnosis
      as one of its two answers. */
  lemma ChainHandlesEveryCategory(c: Category)
    ensures LabelChain(Label(c)) == Tree.NodeKey(EntryNode(c))
    ensures EntryNode(c) != Tree.Root
    ensures exists a :: Tree.Target(EntryNode(c), a) == CategoryLeaf(c)
  {
    match c
    case CardiacArrest => assert Tree.Target(Tree.Q1a, Tree.No) == CategoryLeaf(c);
    case BreathingEmergency => assert Tree.Target(Tree.Q1b, Tree.Yes) == CategoryLeaf(c);
    case SevereBleeding => assert Tree.Target(Tree.Q2a, Tree.Yes) == CategoryLeaf(c);
    case HeartAttack => assert Tree.Target(Tree.Q3a, Tree.Yes) == CategoryLeaf(c);
    case Stroke => assert Tree.Target(Tree.Q4a, Tree.Yes) == CategoryLeaf(c);
    case Seizure => assert Tree.Target(Tree.Q5a, Tree.Yes) == CategoryLeaf(c);
    case AllergicReaction => assert Tree.Target(Tree.Q6a, Tree.Yes) == CategoryLeaf(c);
  }

  /** Every label is trimmed and non-empty. */
  lemma LabelTrimmed(c: Category)
    ensures Label(c) != [] && Trimmed(Label(c))
  {
    match c
    case CardiacArrest =>
    case BreathingEmergency =>
    case SevereBleeding =>
    case HeartAttack =>
    case Stroke =>
    case Seizure =>
    case AllergicReaction =>
  }

  /** A label, with any whitespace around it, resolves to its category's
      entry question and not to the root. */
  lemma ResolveLabel(c: Category, before: string, after: string)
    requires AllSpace(before) && AllSpace(after)
    ensures ResolveEntry(Some(before + Label(c) + after)) == Tree.NodeKey(EntryNode(c))
    ensures ResolveEntry(Some(before + Label(c) + after)) != Tree.NodeKey(Tree.Root)
  {
    var text := before + Label(c) + after;
    LabelTrimmed(c);
    StripPadded(before, Label(c), after);
    LabelFound(c);
    assert ResolveEntry(Some(text)) == LabelChain(Label(c));
    ChainHandlesEveryCategory(c);
    Tree.NodeKeyFound(EntryNode(c));
    Tree.NodeKeyFound(Tree.Root);
  }

  /** An answer that strips to a label resolves to its category's entry
      question. */
  lemma ResolveStrippedLabel(text: string, c: Category)
    requires Strip(text) == Label(c)
    ensures ResolveEntry(Some(text)) == Tree.NodeKey(EntryNode(c))
  {
    LabelFound(c);
    ChainHandlesEveryCategory(c);
  }

  /** The resolution falls back to the root exactly when the call failed or
      the stripped answer is not one of the labels. */
  lemma ResolveFallback(response: Option<string>)
    ensures ResolveEntry(response) == Tree.NodeKey(Tree.Root)
      <==> response.None? || FindCategory(Strip(response.value)).None?
  {
    if response.Some? && FindCategory(Strip(response.value)).Some? {
      var c := FindCategory(Strip(response.value)).value;
      ChainHandlesEveryCategory(c);
      Tree.NodeKeyFound(EntryNode(c));
      Tree.NodeKeyFound(Tree.Root);
    }
  }

  /** A failed call starts at the root. */
  lemma ResolveFailedCall()
    ensures ResolveEntry(None) == "start"
  {
  }

  /** A trimmed answer that is no label starts at the root. */
  lemma ResolveUnlabelled(text: string)
    requires text != [] && Trimmed(text)
    requires FindCategory(text).None?
    ensures ResolveEntry(Some(text)) == "start"
  {
    StripPadded([], text, []);
    assert [] + text + [] == text;
  }

  /** The classifier's own "No Match" answer starts at the root. */
  lemma ResolveNoMatch()
    ensures ResolveEntry(Some("No Match")) == "start"
  {
    assert FindCategory("No Match").None?;
    ResolveUnlabelled("No Match");
  }

  /** An empty answer starts at the root. */
  lemma ResolveEmptyAnswer()
    ensures ResolveEntry(Some("")) == "start"
  {
  }

  /** The match is case-sensitive: a label in lower case starts at the root. */
  lemma ResolveWrongCase()
    ensures ResolveEntry(Some("heart attack")) == "start"
  {
    assert FindCategory("heart attack").None?;
    ResolveUnlabelled("heart attack");
  }

  /** A label with whitespace around it is still recognised. */
  lemma ResolvePaddedLabel()
    ensures ResolveEntry(Some(" Stroke\n")) == "q4_a"
  {
    assert " Stroke\n" == " " + Label(Stroke) + "\n";
    ResolveLabel(Stroke, " ", "\n");
  }
}
