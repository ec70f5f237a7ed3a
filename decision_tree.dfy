/**
 * The fixed yes/no first-aid decision tree: eight question nodes, nine
 * diagnosis leaves, and the shape properties the triage flow relies on
 * (no dangling transition, the "diag_" prefix test, no cycle, a depth
 * bound, every id reachable from the root).
 *
 * app.py keeps the tree in two dictionaries keyed by strings. Here the
 * keys of each dictionary are the constructors of an enumeration, each
 * with its string key (`NodeKey`, `LeafKey`), and a key lookup on a string
 * (`FindNode`, `FindLeaf`) plays the part of the dictionary's `in` test.
 * The yes/no targets stay strings, as in app.py, so that closure of the
 * transitions is a fact to prove rather than a consequence of typing.
 * The longer texts are written as concatenations of short pieces; each
 * value is the text app.py holds.
 */
module DecisionTree {
  import opened Wrappers

  /** The keys of the `questions` table. */
  datatype NodeId = Start | Q1a | Q1b | Q2a | Q3a | Q4a | Q5a | Q6a

  /** The keys of the `diagnoses` table. */
  datatype LeafId =
    | UnconsciousNotBreathing | UnconsciousBreathing | UnconsciousNoPulse
    | Bleeding | HeartAttack | Stroke | Seizure | AllergicReaction | GeneralOk

  /** A state of the triage: a question still to ask, or a diagnosis reached. */
  datatype TreeId = Ask(node: NodeId) | Tell(leaf: LeafId)

  /** A question node: the text shown to the user and the keys that the
      answers `yes` and `no` lead to. */
  datatype QuestionNode = QuestionNode(question: string, yes: string, no: string)

  /** A yes/no answer to a question. */
  datatype Answer = Yes | No

  /** The node every fresh traversal starts from. */
  const Root: NodeId := Start

  /** The prefix by which the routing tells a diagnosis key from a question key. */
  const LeafPrefix: string := "diag_"

  function NodeKey(n: NodeId): string {
    match n
    case Start => "start"
    case Q1a => "q1_a"
    case Q1b => "q1_b"
    case Q2a => "q2_a"
    case Q3a => "q3_a"
    case Q4a => "q4_a"
    case Q5a => "q5_a"
    case Q6a => "q6_a"
  }

  function LeafKey(l: LeafId): string {
    match l
    case UnconsciousNotBreathing => "diag_unconscious_not_breathing"
    case UnconsciousBreathing => "diag_unconscious_breathing"
    case UnconsciousNoPulse => "diag_unconscious_no_pulse"
    case Bleeding => "diag_bleeding"
    case HeartAttack => "diag_heart_attack"
    case Stroke => "diag_stroke"
    case Seizure => "diag_seizure"
    case AllergicReaction => "diag_allergic_reaction"
    case GeneralOk => "diag_general_ok"
  }

  /** The "question" entries of the `questions` table. */
  function QuestionText(n: NodeId): string {
    match n
    case Start =>
      "Are they conscious and "
      + "responsive?"
    case Q1a => "Are they breathing?"
    case Q1b => "Do they have a pulse?"
    case Q2a =>
      "Is there any severe "
      + "bleeding?"
    case Q3a =>
      "Are they clutching "
      + "their chest or "
      + "experiencing severe "
      + "chest pain?"
    case Q4a =>
      "Are they exhibiting "
      + "facial drooping, arm "
      + "weakness, or slurred "
      + "speech?"
    case Q5a =>
      "Are they experiencing a "
      + "sudden, uncontrollable "
      + "shaking of their body?"
    case Q6a =>
      "Do they have a known "
      + "history of severe "
      + "allergies or are they "
      + "having trouble "
      + "breathing with "
      + "swelling?"
  }

  /** The "yes" and "no" entries of the `questions` table: the key an answer
      at question `n` leads to. */
  function Target(n: NodeId, a: Answer): string {
    match (n, a)
    case (Start, Yes) => "q1_a"
    case (Start, No) => "q1_b"
    case (Q1a, Yes) => "q2_a"
    case (Q1a, No) => "diag_unconscious_not_breathing"
    case (Q1b, Yes) => "diag_unconscious_breathing"
    case (Q1b, No) => "diag_unconscious_no_pulse"
    case (Q2a, Yes) => "diag_bleeding"
    case (Q2a, No) => "q3_a"
    case (Q3a, Yes) => "diag_heart_attack"
    case (Q3a, No) => "q4_a"
    case (Q4a, Yes) => "diag_stroke"
    case (Q4a, No) => "q5_a"
    case (Q5a, Yes) => "diag_seizure"
    case (Q5a, No) => "q6_a"
    case (Q6a, Yes) => "diag_allergic_reaction"
    case (Q6a, No) => "diag_general_ok"
  }

  /** The `questions` table: one entry per question node. */
  function Node(n: NodeId): QuestionNode {
    QuestionNode(QuestionText(n), Target(n, Yes), Target(n, No))
  }

  /** The `diagnoses` table. */
  function Recommendation(l: LeafId): string {
    match l
    case UnconsciousNotBreathing =>
      "Possible Cardiac "
      + "Arrest. Start CPR "
      + "immediately and call "
      + "for an AED. You should "
      + "have already called for "
      + "emergency services."
    case UnconsciousBreathing =>
      "Possible Unconscious "
      + "but Breathing. Place "
      + "them in the recovery "
      + "position and monitor "
      + "their breathing. You "
      + "should have already "
      + "called for emergency "
      + "services."
    case UnconsciousNoPulse =>
      "Possible Cardiac "
      + "Arrest. Start CPR "
      + "immediately. You should "
      + "have already called for "
      + "emergency services."
    case Bleeding =>
      "Possible Severe "
      + "Bleeding. Apply direct "
      + "pressure to the wound "
      + "with a clean cloth. "
      + "Elevate the injured "
      + "area if possible. You "
      + "should have already "
      + "called for emergency "
      + "services."
    case HeartAttack =>
      "Possible Heart Attack. "
      + "Keep the person calm "
      + "and seated. Loosen any "
      + "tight clothing. You "
      + "should have already "
      + "called for emergency "
      + "services."
    case Stroke =>
      "Possible Stroke. "
      + "Remember the FAST "
      + "acronym (Face, Arm, "
      + "Speech, Time). Do not "
      + "give them anything to "
      + "eat or drink. You "
      + "should have already "
      + "called for emergency "
      + "services."
    case Seizure =>
      "Possible Seizure. "
      + "Protect the person from "
      + "injury by moving "
      + "objects away. Do not "
      + "restrain them. You "
      + "should have already "
      + "called for emergency "
      + "services."
    case AllergicReaction =>
      "Possible Anaphylactic "
      + "Shock. If they have an "
      + "epinephrine "
      + "auto-injector, assist "
      + "them in using it. You "
      + "should have already "
      + "called for emergency "
      + "services."
    case GeneralOk =>
      "The person may be fine "
      + "or have a less critical "
      + "condition. However, if "
      + "symptoms persist or "
      + "worsen, please seek "
      + "professional medical "
      + "help immediately."
  }

  /** Looking a string up among the keys of `questions`. */
  function FindNode(key: string): (r: Option<NodeId>)
    ensures r.Some? ==> NodeKey(r.value) == key
  {
    if key == NodeKey(Start) then Some(Start)
    else if key == NodeKey(Q1a) then Some(Q1a)
    else if key == NodeKey(Q1b) then Some(Q1b)
    else if key == NodeKey(Q2a) then Some(Q2a)
    else if key == NodeKey(Q3a) then Some(Q3a)
    else if key == NodeKey(Q4a) then Some(Q4a)
    else if key == NodeKey(Q5a) then Some(Q5a)
    else if key == NodeKey(Q6a) then Some(Q6a)
    else None
  }

  /** Looking a string up among the keys of `diagnoses`. */
  function FindLeaf(key: string): (r: Option<LeafId>)
    ensures r.Some? ==> LeafKey(r.value) == key
  {
    if key == LeafKey(UnconsciousNotBreathing) then Some(UnconsciousNotBreathing)
    else if key == LeafKey(UnconsciousBreathing) then Some(UnconsciousBreathing)
    else if key == LeafKey(UnconsciousNoPulse) then Some(UnconsciousNoPulse)
    else if key == LeafKey(Bleeding) then Some(Bleeding)
    else if key == LeafKey(HeartAttack) then Some(HeartAttack)
    else if key == LeafKey(Stroke) then Some(Stroke)
    else if key == LeafKey(Seizure) then Some(Seizure)
    else if key == LeafKey(AllergicReaction) then Some(AllergicReaction)
    else if key == LeafKey(GeneralOk) then Some(GeneralOk)
    else None
  }

  /** The state a string key names, if it is a key of either table. */
  function Resolve(key: string): Option<TreeId> {
    match FindNode(key)
    case Some(n) => Some(Ask(n))
    case None =>
      match FindLeaf(key)
      case Some(l) => Some(Tell(l))
      case None => None
  }

  /** The string key of a state. */
  function Key(t: TreeId): string {
    match t
    case Ask(n) => NodeKey(n)
    case Tell(l) => LeafKey(l)
  }

  /** Every question key is found again by the lookup, and is no diagnosis key. */
  lemma NodeKeyFound(n: NodeId)
    ensures FindNode(NodeKey(n)) == Some(n)
    ensures FindLeaf(NodeKey(n)) == None
  {
    match n
    case Start =>
    case Q1a =>
    case Q1b =>
    case Q2a =>
    case Q3a =>
    case Q4a =>
    case Q5a =>
    case Q6a =>
  }

  /** Every diagnosis key is found again by the lookup, and is no question key. */
  lemma LeafKeyFound(l: LeafId)
    ensures FindLeaf(LeafKey(l)) == Some(l)
    ensures FindNode(LeafKey(l)) == None
  {
    match l
    case UnconsciousNotBreathing =>
    case UnconsciousBreathing =>
    case UnconsciousNoPulse =>
    case Bleeding =>
    case HeartAttack =>
    case Stroke =>
    case Seizure =>
    case AllergicReaction =>
    case GeneralOk =>
  }

  /** The key of every state resolves back to that state, so distinct states
      have distinct keys and the two tables share no key. */
  lemma KeysRoundTrip(t: TreeId)
    ensures Resolve(Key(t)) == Some(t)
  {
    match t
    case Ask(n) => NodeKeyFound(n);
    case Tell(l) => LeafKeyFound(l);
  }

  /** The string key under which an answer is looked up in a node. */
  function AnswerKey(a: Answer): string {
    match a
    case Yes => "yes"
    case No => "no"
  }

  /** A node is a dictionary with the keys "question", "yes" and "no";
      looking up any other key fails. */
  function Field(node: QuestionNode, key: string): Option<string> {
    if key == "question" then Some(node.question)
    else if key == "yes" then Some(node.yes)
    else if key == "no" then Some(node.no)
    else None
  }

  /** The transitions read as states: the question or diagnosis that each
      answer leads to, as the keys in `Target` name them. */
  function Next(n: NodeId, a: Answer): TreeId {
    match (n, a)
    case (Start, Yes) => Ask(Q1a)
    case (Start, No) => Ask(Q1b)
    case (Q1a, Yes) => Ask(Q2a)
    case (Q1a, No) => Tell(UnconsciousNotBreathing)
    case (Q1b, Yes) => Tell(UnconsciousBreathing)
    case (Q1b, No) => Tell(UnconsciousNoPulse)
    case (Q2a, Yes) => Tell(Bleeding)
    case (Q2a, No) => Ask(Q3a)
    case (Q3a, Yes) => Tell(HeartAttack)
    case (Q3a, No) => Ask(Q4a)
    case (Q4a, Yes) => Tell(Stroke)
    case (Q4a, No) => Ask(Q5a)
    case (Q5a, Yes) => Tell(Seizure)
    case (Q5a, No) => Ask(Q6a)
    case (Q6a, Yes) => Tell(AllergicReaction)
    case (Q6a, No) => Tell(GeneralOk)
  }

  /** Looking an answer's key up in a node yields that answer's target. */
  lemma FieldOfAnswer(n: NodeId, a: Answer)
    ensures Field(Node(n), AnswerKey(a)) == Some(Target(n, a))
  {
  }

  /** Every "yes"/"no" entry of the `questions` table is the key of the
      state `Next` names. */
  lemma TargetIsKey(n: NodeId, a: Answer)
    ensures Target(n, a) == Key(Next(n, a))
  {
    match n
    case Start =>
    case Q1a =>
    case Q1b =>
    case Q2a =>
    case Q3a =>
    case Q4a =>
    case Q5a =>
    case Q6a =>
  }

  /** No transition dangles: every "yes"/"no" entry of the `questions` table
      is found in one of the two tables, as the state that `Next` names. */
  lemma TransitionsClosed(n: NodeId, a: Answer)
    ensures Resolve(Target(n, a)) == Some(Next(n, a))
  {
    TargetIsKey(n, a);
    KeysRoundTrip(Next(n, a));
  }

  predicate StartsWith(s: string, prefix: string) {
    |prefix| <= |s| && s[..|prefix|] == prefix
  }

  /** The routing's test for "this key is a diagnosis". */
  predicate HasLeafPrefix(key: string) {
    StartsWith(key, LeafPrefix)
  }

  /** A string whose first character is not 'd' does not carry the prefix. */
  lemma NoLeafPrefix(s: string)
    requires |s| > 0 && s[0] != 'd'
    ensures !HasLeafPrefix(s)
  {
    assert LeafPrefix[0] == 'd';
  }

  /** Question keys lack the diagnosis prefix; diagnosis keys carry it. */
  lemma KeyPrefixes(t: TreeId)
    ensures HasLeafPrefix(Key(t)) <==> t.Tell?
  {
    match t
    case Ask(n) =>
      assert NodeKey(n)[0] == 's' || NodeKey(n)[0] == 'q' by {
        match n
        case Start =>
        case Q1a =>
        case Q1b =>
        case Q2a =>
        case Q3a =>
        case Q4a =>
        case Q5a =>
        case Q6a =>
      }
      NoLeafPrefix(NodeKey(n));
    case Tell(l) =>
      match l
      case UnconsciousNotBreathing =>
      case UnconsciousBreathing =>
      case UnconsciousNoPulse =>
      case Bleeding =>
      case HeartAttack =>
      case Stroke =>
      case Seizure =>
      case AllergicReaction =>
      case GeneralOk =>
  }

  /** On the keys of the tree, the prefix test agrees with membership in
      `diagnoses`, and no key is in both tables. */
  lemma LeafPrefixClassifies(key: string)
    requires Resolve(key).Some?
    ensures HasLeafPrefix(key) <==> FindLeaf(key).Some?
    ensures !(FindNode(key).Some? && FindLeaf(key).Some?)
  {
    var t := Resolve(key).value;
    assert Key(t) == key;
    KeyPrefixes(t);
    KeysRoundTrip(t);
    match t
    case Ask(n) => NodeKeyFound(n);
    case Tell(l) =>
  }

  // Each question text is shown not to be a key on its own: a proof that
  // holds every text at once is too large for the solver.

  lemma StartTextIsNotAKey()
    ensures Resolve(QuestionText(Start)).None?
  {
  }

  lemma Q1aTextIsNotAKey()
    ensures Resolve(QuestionText(Q1a)).None?
  {
  }

  lemma Q1bTextIsNotAKey()
    ensures Resolve(QuestionText(Q1b)).None?
  {
  }

  lemma Q2aTextIsNotAKey()
    ensures Resolve(QuestionText(Q2a)).None?
  {
  }

  lemma Q3aTextIsNotAKey()
    ensures Resolve(QuestionText(Q3a)).None?
  {
  }

  lemma Q4aTextIsNotAKey()
    ensures Resolve(QuestionText(Q4a)).None?
  {
  }

  lemma Q5aTextIsNotAKey()
    ensures Resolve(QuestionText(Q5a)).None?
  {
  }

  lemma Q6aTextIsNotAKey()
    ensures Resolve(QuestionText(Q6a)).None?
  {
  }

  /** No question text is a key of the tree, so looking a text up as if it
      were a key fails in both tables. */
  lemma QuestionTextIsNotAKey(n: NodeId)
    ensures Resolve(QuestionText(n)).None?
  {
    match n
    case Start => StartTextIsNotAKey();
    case Q1a => Q1aTextIsNotAKey();
    case Q1b => Q1bTextIsNotAKey();
    case Q2a => Q2aTextIsNotAKey();
    case Q3a => Q3aTextIsNotAKey();
    case Q4a => Q4aTextIsNotAKey();
    case Q5a => Q5aTextIsNotAKey();
    case Q6a => Q6aTextIsNotAKey();
  }

  /** Every recommendation text is non-empty. */
  lemma RecommendationNonEmpty(l: LeafId)
    ensures |Recommendation(l)| > 0
  {
    match l
    case UnconsciousNotBreathing =>
    case UnconsciousBreathing =>
    case UnconsciousNoPulse =>
    case Bleeding =>
    case HeartAttack =>
    case Stroke =>
    case Seizure =>
    case AllergicReaction =>
    case GeneralOk =>
  }

  // ----- Acyclicity and depth -----

  /** A ranking certificate: at most how many questions are still ahead. */
  function Rank(t: TreeId): nat {
    match t
    case Tell(_) => 0
    case Ask(n) =>
      match n
      case Start => 7
      case Q1a => 6
      case Q2a => 5
      case Q3a => 4
      case Q4a => 3
      case Q5a => 2
      case Q6a => 1
      case Q1b => 1
  }

  /** Every transition strictly lowers the rank, so the graph has no cycle. */
  lemma RankDecreases(n: NodeId, a: Answer)
    ensures Rank(Next(n, a)) < Rank(Ask(n))
  {
  }

  function Max(x: nat, y: nat): nat {
    if x < y then y else x
  }

  /** The number of answers on the longest path from `t` down to a leaf. */
  function Height(t: TreeId): nat
    decreases Rank(t)
  {
    match t
    case Tell(_) => 0
    case Ask(n) =>
      RankDecreases(n, Yes);
      RankDecreases(n, No);
      1 + Max(Height(Next(n, Yes)), Height(Next(n, No)))
  }

  /** From the root the longest path takes seven answers. */
  lemma HeightOfRoot()
    ensures Height(Ask(Root)) == 7
  {
    assert Height(Ask(Q1b)) == 1;
    assert Height(Ask(Q6a)) == 1;
    assert Height(Ask(Q5a)) == 2;
    assert Height(Ask(Q4a)) == 3;
    assert Height(Ask(Q3a)) == 4;
    assert Height(Ask(Q2a)) == 5;
    assert Height(Ask(Q1a)) == 6;
  }

  /** The states visited when the answers are given one by one starting at
      `t`: the walk stops at a diagnosis, or when the answers run out. */
  function Visit(t: TreeId, answers: seq<Answer>): (path: seq<TreeId>)
    ensures 1 <= |path| <= |answers| + 1 && path[0] == t
    decreases |answers|
  {
    if answers == [] || t.Tell? then [t]
    else [t] + Visit(Next(t.node, answers[0]), answers[1..])
  }

  /** A walk moves by the table's transitions, one answer per step, and
      stops only at a diagnosis or when the answers run out. */
  lemma {:induction false} VisitIsWalk(t: TreeId, answers: seq<Answer>)
    ensures var path := Visit(t, answers);
      forall i :: 0 <= i < |path| - 1 ==>
        path[i].Ask? && path[i + 1] == Next(path[i].node, answers[i])
    ensures Last(Visit(t, answers)).Tell? || |Visit(t, answers)| == |answers| + 1
    decreases |answers|
  {
    if answers != [] && t.Ask? {
      var next := Next(t.node, answers[0]);
      var rest := Visit(next, answers[1..]);
      VisitIsWalk(next, answers[1..]);
      assert Visit(t, answers) == [t] + rest;
    }
  }

  function Last(path: seq<TreeId>): TreeId
    requires |path| > 0
  {
    path[|path| - 1]
  }

  /** Along every walk the rank strictly falls, so no state is visited twice. */
  lemma {:induction false} VisitNeverRepeats(t: TreeId, answers: seq<Answer>)
    ensures forall i, j :: 0 <= i < j < |Visit(t, answers)| ==>
      Rank(Visit(t, answers)[j]) < Rank(Visit(t, answers)[i])
    ensures forall i, j :: 0 <= i < j < |Visit(t, answers)| ==>
      Visit(t, answers)[i] != Visit(t, answers)[j]
    decreases |answers|
  {
    var path := Visit(t, answers);
    if answers != [] && t.Ask? {
      var next := Next(t.node, answers[0]);
      VisitNeverRepeats(next, answers[1..]);
      RankDecreases(t.node, answers[0]);
      assert path == [t] + Visit(next, answers[1..]);
      forall i, j | 0 <= i < j < |path|
        ensures Rank(path[j]) < Rank(path[i])
      {
        if i == 0 && j > 1 {
          assert Rank(path[j]) < Rank(path[1]);
        }
      }
    }
  }

  /** A walk consumes at most `Height(t)` answers and, given that many,
      ends at a diagnosis. */
  lemma {:induction false} VisitReachesDiagnosis(t: TreeId, answers: seq<Answer>)
    ensures |Visit(t, answers)| - 1 <= Height(t)
    ensures |answers| >= Height(t) ==> Last(Visit(t, answers)).Tell?
    decreases |answers|
  {
    if answers != [] && t.Ask? {
      var next := Next(t.node, answers[0]);
      var rest := Visit(next, answers[1..]);
      VisitReachesDiagnosis(next, answers[1..]);
      assert Height(next) < Height(t) by {
        assert next == Next(t.node, Yes) || next == Next(t.node, No);
      }
      assert Visit(t, answers) == [t] + rest;
      assert Last(Visit(t, answers)) == Last(rest);
    }
  }

  /** From the root, every sequence of answers reaches a diagnosis after at
      most seven of them, and never visits a state twice. */
  lemma RootTerminatesWithinSeven(answers: seq<Answer>)
    ensures |Visit(Ask(Root), answers)| - 1 <= 7
    ensures |answers| >= 7 ==> Last(Visit(Ask(Root), answers)).Tell?
    ensures forall i, j :: 0 <= i < j < |Visit(Ask(Root), answers)| ==>
      Visit(Ask(Root), answers)[i] != Visit(Ask(Root), answers)[j]
  {
    HeightOfRoot();
    VisitReachesDiagnosis(Ask(Root), answers);
    VisitNeverRepeats(Ask(Root), answers);
  }

  /** The bound is attained: yes, yes and then five times no takes seven answers
      and ends at the general "may be fine" leaf. */
  lemma LongestPath()
    ensures Visit(Ask(Root), [Yes, Yes, No, No, No, No, No])
      == [Ask(Start), Ask(Q1a), Ask(Q2a), Ask(Q3a), Ask(Q4a), Ask(Q5a), Ask(Q6a), Tell(GeneralOk)]
  {
    var w := [Yes, Yes, No, No, No, No, No];
    assert Visit(Tell(GeneralOk), w[7..]) == [Tell(GeneralOk)];
    assert Visit(Ask(Q6a), w[6..]) == [Ask(Q6a)] + Visit(Tell(GeneralOk), w[7..]);
    assert Visit(Ask(Q5a), w[5..]) == [Ask(Q5a)] + Visit(Ask(Q6a), w[6..]);
    assert Visit(Ask(Q4a), w[4..]) == [Ask(Q4a)] + Visit(Ask(Q5a), w[5..]);
    assert Visit(Ask(Q3a), w[3..]) == [Ask(Q3a)] + Visit(Ask(Q4a), w[4..]);
    assert Visit(Ask(Q2a), w[2..]) == [Ask(Q2a)] + Visit(Ask(Q3a), w[3..]);
    assert Visit(Ask(Q1a), w[1..]) == [Ask(Q1a)] + Visit(Ask(Q2a), w[2..]);
    assert Visit(Ask(Start), w) == [Ask(Start)] + Visit(Ask(Q1a), w[1..]);
  }

  // ----- Reachability -----

  /** Some sequence of answers leads from the root to `t`. */
  ghost predicate Reachable(t: TreeId) {
    exists answers :: Last(Visit(Ask(Root), answers)) == t
  }

  /** A walk that stops at a question has used all its answers, so one more
      answer takes it one step further. */
  lemma {:induction false} VisitExtend(t: TreeId, answers: seq<Answer>, a: Answer)
    requires Last(Visit(t, answers)).Ask?
    ensures Visit(t, answers + [a]) == Visit(t, answers) + [Next(Last(Visit(t, answers)).node, a)]
    decreases |answers|
  {
    if answers == [] {
      assert Visit(t, [a]) == [t] + Visit(Next(t.node, a), []);
    } else {
      var next := Next(t.node, answers[0]);
      assert (answers + [a])[1..] == answers[1..] + [a];
      assert Visit(t, answers) == [t] + Visit(next, answers[1..]);
      VisitExtend(next, answers[1..], a);
    }
  }

  /** The question and answer that lead to each state other than the root. */
  function Parent(t: TreeId): (NodeId, Answer)
    requires t != Ask(Root)
  {
    match t
    case Ask(Q1a) => (Start, Yes)
    case Ask(Q1b) => (Start, No)
    case Ask(Q2a) => (Q1a, Yes)
    case Ask(Q3a) => (Q2a, No)
    case Ask(Q4a) => (Q3a, No)
    case Ask(Q5a) => (Q4a, No)
    case Ask(Q6a) => (Q5a, No)
    case Tell(UnconsciousNotBreathing) => (Q1a, No)
    case Tell(UnconsciousBreathing) => (Q1b, Yes)
    case Tell(UnconsciousNoPulse) => (Q1b, No)
    case Tell(Bleeding) => (Q2a, Yes)
    case Tell(HeartAttack) => (Q3a, Yes)
    case Tell(Stroke) => (Q4a, Yes)
    case Tell(Seizure) => (Q5a, Yes)
    case Tell(AllergicReaction) => (Q6a, Yes)
    case Tell(GeneralOk) => (Q6a, No)
  }

  /** The graph is a tree: every state other than the root is entered by
      exactly one transition, and the root by none. */
  lemma UniqueParent(n: NodeId, a: Answer)
    ensures Next(n, a) != Ask(Root)
    ensures Parent(Next(n, a)) == (n, a)
  {
  }

  /** Every state other than the root is entered by the transition
      `Parent` names. */
  lemma ParentLeadsBack(t: TreeId)
    requires t != Ask(Root)
    ensures Next(Parent(t).0, Parent(t).1) == t
  {
  }

  /** No state is an island: every question and every diagnosis is reached
      from the root by some sequence of answers. */
  lemma {:induction false} AllReachable(t: TreeId)
    ensures Reachable(t)
    decreases Rank(Ask(Root)) - Rank(t)
  {
    if t == Ask(Root) {
      assert Last(Visit(Ask(Root), [])) == t;
    } else {
      var (n, a) := Parent(t);
      assert Next(n, a) == t && Rank(t) < Rank(Ask(n)) <= Rank(Ask(Root));
      AllReachable(Ask(n));
      var answers :| Last(Visit(Ask(Root), answers)) == Ask(n);
      VisitExtend(Ask(Root), answers, a);
      assert Last(Visit(Ask(Root), answers + [a])) == t;
    }
  }
}
