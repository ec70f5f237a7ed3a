/**
 * The two JSON endpoints of the triage service as functions from the
 * request's fields to the reply.
 *
 * A reply is one of the three shapes the service sends: a question to ask
 * next, a diagnosis, or the error for a request without symptoms. A
 * dictionary lookup that fails in app.py raises `KeyError`, which
 * escapes the handler; here it is `Err(KeyError(key))`, carrying the key
 * that was looked up (`None` when the request did not send the field).
 */
module TriageApi {
  import opened Wrappers
  import Tree = DecisionTree
  import Cls = SymptomClassifier

  /** The reply body: status "question", status "diagnosis", or status
      "error" with the message that no symptoms were given. */
  datatype Reply =
    | AskQuestion(nextId: string, question: string)
    | GiveDiagnosis(diagnosis: string)
    | NoSymptoms

  /** A dictionary lookup that failed, with the key it was given. */
  datatype Fault = KeyError(key: Option<string>)

  /** The reply that shows a state of the tree to the user. */
  function Show(t: Tree.TreeId): Reply {
    match t
    case Ask(n) => AskQuestion(Tree.NodeKey(n), Tree.QuestionText(n))
    case Tell(l) => GiveDiagnosis(Tree.Recommendation(l))
  }

  /** `questions[key]`. */
  function NodeAt(key: Option<string>): (r: Result<Tree.NodeId, Fault>)
    ensures r.Ok? ==> key == Some(Tree.NodeKey(r.value))
    ensures r.Err? ==> r.error == KeyError(key)
  {
    match key
    case None => Err(KeyError(None))
    case Some(k) =>
      match Tree.FindNode(k)
      case Some(n) => Ok(n)
      case None => Err(KeyError(key))
  }

  /** `node[key]`, for a node of the `questions` table. */
  function FieldAt(node: Tree.QuestionNode, key: Option<string>): (r: Result<string, Fault>)
    ensures r.Err? ==> r.error == KeyError(key)
  {
    match key
    case None => Err(KeyError(None))
    case Some(k) =>
      match Tree.Field(node, k)
      case Some(v) => Ok(v)
      case None => Err(KeyError(key))
  }

  /** The key the answer leads to: the root for the answer "initial",
      otherwise the entry of the current node under the answer. */
  function NextKey(current: Option<string>, answer: Option<string>): (r: Result<string, Fault>)
    ensures answer == Some("initial") ==> r == Ok(Tree.NodeKey(Tree.Root))
  {
    if answer == Some("initial") then Ok("start")
    else
      match NodeAt(current)
      case Err(f) => Err(f)
      case Ok(n) => FieldAt(Tree.Node(n), answer)
  }

  /** The reply for a key: a key carrying the diagnosis prefix is looked up
      in `diagnoses`, any other key in `questions`. */
  function Route(next: string): (r: Result<Reply, Fault>)
    ensures r.Err? ==> r.error == KeyError(Some(next))
  {
    if Tree.HasLeafPrefix(next) then
      match Tree.FindLeaf(next)
      case Some(l) => Ok(GiveDiagnosis(Tree.Recommendation(l)))
      case None => Err(KeyError(Some(next)))
    else
      match Tree.FindNode(next)
      case Some(n) => Ok(AskQuestion(next, Tree.QuestionText(n)))
      case None => Err(KeyError(Some(next)))
  }

  /** The quiz step: the reply to an answer given at the current question. */
  function Advance(current: Option<string>, answer: Option<string>): (r: Result<Reply, Fault>)
    ensures r.Ok? ==> !r.value.NoSymptoms?
    ensures r.Ok? && r.value.AskQuestion? ==>
      Tree.FindNode(r.value.nextId).Some?
      && r.value.question == Tree.QuestionText(Tree.FindNode(r.value.nextId).value)
  {
    match NextKey(current, answer)
    case Err(f) => Err(f)
    case Ok(next) => Route(next)
  }

  /** The answer "initial" restarts the quiz at the root question, whatever
      the current id is. */
  lemma AdvanceInitial(current: Option<string>)
    ensures Advance(current, Some("initial")) == Ok(Show(Tree.Ask(Tree.Root)))
  {
    RouteKnownKey(Tree.Ask(Tree.Root));
  }

  /** A key of the tree is routed to the reply that shows its state. */
  lemma RouteKnownKey(t: Tree.TreeId)
    ensures Route(Tree.Key(t)) == Ok(Show(t))
  {
    Tree.KeyPrefixes(t);
    Tree.KeysRoundTrip(t);
    match t
    case Ask(n) => Tree.NodeKeyFound(n);
    case Tell(l) => Tree.LeafKeyFound(l);
  }

  /** A string that is a key of neither table is reported as missing,
      whichever table the prefix test sends it to. */
  lemma RouteUnknownKey(key: string)
    requires Tree.Resolve(key).None?
    ensures Route(key) == Err(KeyError(Some(key)))
  {
  }

  /** Routing succeeds exactly on the keys of the tree. */
  lemma RouteSucceedsExactlyOnKeys(key: string)
    ensures Route(key).Ok? <==> Tree.Resolve(key).Some?
    ensures Route(key).Ok? ==> Route(key).value == Show(Tree.Resolve(key).value)
  {
    match Tree.Resolve(key)
    case Some(t) =>
      Tree.KeysRoundTrip(t);
      assert Tree.Key(t) == key by {
        match t
        case Ask(n) =>
        case Tell(l) =>
      }
      RouteKnownKey(t);
    case None => RouteUnknownKey(key);
  }

  /** Answering "yes" or "no" at a question moves along the tree: the reply
      shows the state the answer leads to. */
  lemma AdvanceFollowsTree(n: Tree.NodeId, a: Tree.Answer)
    ensures Advance(Some(Tree.NodeKey(n)), Some(Tree.AnswerKey(a))) == Ok(Show(Tree.Next(n, a)))
  {
    NextKeyOfMove(n, a);
    Tree.TransitionsClosed(n, a);
    assert Tree.Key(Tree.Next(n, a)) == Tree.Target(n, a) by {
      Tree.KeysRoundTrip(Tree.Next(n, a));
    }
    RouteKnownKey(Tree.Next(n, a));
  }

  /** Answering "yes" or "no" at a question looks up that answer's target. */
  lemma NextKeyOfMove(n: Tree.NodeId, a: Tree.Answer)
    ensures NextKey(Some(Tree.NodeKey(n)), Some(Tree.AnswerKey(a))) == Ok(Tree.Target(n, a))
  {
    Tree.NodeKeyFound(n);
    Tree.FieldOfAnswer(n, a);
    assert Tree.AnswerKey(a) != "initial";
  }

  /** The answer "question" passes the node's field check but yields the
      question's text as the next key, which no table holds: the step fails
      on that text. */
  lemma AdvanceOnQuestionField(n: Tree.NodeId)
    ensures Advance(Some(Tree.NodeKey(n)), Some("question")) == Err(KeyError(Some(Tree.QuestionText(n))))
  {
    Tree.NodeKeyFound(n);
    Tree.QuestionTextIsNotAKey(n);
    RouteUnknownKey(Tree.QuestionText(n));
  }

  /** The answer values a node accepts as moves. */
  predicate IsMove(answer: Option<string>) {
    answer == Some("yes") || answer == Some("no")
  }

  /** At a question, an answer that is none of "initial", "yes", "no" and
      "question" is looked up as a field of the node and fails on itself. */
  lemma AdvanceUnknownAnswer(n: Tree.NodeId, answer: string)
    requires answer != "initial" && answer != "yes" && answer != "no" && answer != "question"
    ensures Advance(Some(Tree.NodeKey(n)), Some(answer)) == Err(KeyError(Some(answer)))
  {
    Tree.NodeKeyFound(n);
  }

  /** The step succeeds exactly when the answer is "initial", or the current
      id is a question and the answer is "yes" or "no". */
  lemma AdvanceSucceedsExactly(current: Option<string>, answer: Option<string>)
    ensures Advance(current, answer).Ok? <==>
      answer == Some("initial")
      || (current.Some? && Tree.FindNode(current.value).Some? && IsMove(answer))
  {
    if answer == Some("initial") {
      AdvanceInitial(current);
    } else if current.Some? && Tree.FindNode(current.value).Some? {
      var n := Tree.FindNode(current.value).value;
      assert current == Some(Tree.NodeKey(n));
      if answer == Some("yes") {
        AdvanceFollowsTree(n, Tree.Yes);
      } else if answer == Some("no") {
        AdvanceFollowsTree(n, Tree.No);
      } else if answer == Some("question") {
        AdvanceOnQuestionField(n);
      }
    }
  }

  /** Replaying a sequence of answers from the root through the step
      endpoint follows the walk of the tree: at each question on the walk,
      the reply to the next answer shows the next state of the walk. */
  lemma AdvanceAlongVisit(answers: seq<Tree.Answer>, i: nat)
    requires i + 1 < |Tree.Visit(Tree.Ask(Tree.Root), answers)|
    ensures Tree.Visit(Tree.Ask(Tree.Root), answers)[i].Ask?
    ensures var path := Tree.Visit(Tree.Ask(Tree.Root), answers);
      Advance(Some(Tree.Key(path[i])), Some(Tree.AnswerKey(answers[i]))) == Ok(Show(path[i + 1]))
  {
    var path := Tree.Visit(Tree.Ask(Tree.Root), answers);
    Tree.VisitIsWalk(Tree.Ask(Tree.Root), answers);
    AdvanceFollowsTree(path[i].node, answers[i]);
  }

  /** Sending "initial" as both the current id and the answer gets the
      root question. */
  lemma OpeningQuestion()
    ensures Advance(Some("initial"), Some("initial"))
      == Ok(AskQuestion("start", "Are they conscious and responsive?"))
  {
    AdvanceInitial(Some("initial"));
    assert Tree.QuestionText(Tree.Root) == "Are they conscious and responsive?";
  }

  /** An unconscious person with a pulse: "no" at the root, then "yes",
      ends at the diagnosis for an unconscious but breathing person. */
  lemma PathNoYes()
    ensures Advance(Some("start"), Some("no")) == Ok(Show(Tree.Ask(Tree.Q1b)))
    ensures Advance(Some("q1_b"), Some("yes")) == Ok(Show(Tree.Tell(Tree.UnconsciousBreathing)))
  {
    AdvanceFollowsTree(Tree.Start, Tree.No);
    assert Tree.Next(Tree.Start, Tree.No) == Tree.Ask(Tree.Q1b);
    AdvanceFollowsTree(Tree.Q1b, Tree.Yes);
    assert Tree.Next(Tree.Q1b, Tree.Yes) == Tree.Tell(Tree.UnconsciousBreathing);
  }

  /** A conscious, breathing person who is bleeding: "yes" three times ends
      at the bleeding diagnosis. */
  lemma PathYesYesYes()
    ensures Advance(Some("start"), Some("yes")) == Ok(Show(Tree.Ask(Tree.Q1a)))
    ensures Advance(Some("q1_a"), Some("yes")) == Ok(Show(Tree.Ask(Tree.Q2a)))
    ensures Advance(Some("q2_a"), Some("yes")) == Ok(Show(Tree.Tell(Tree.Bleeding)))
  {
    AdvanceFollowsTree(Tree.Start, Tree.Yes);
    AdvanceFollowsTree(Tree.Q1a, Tree.Yes);
    AdvanceFollowsTree(Tree.Q2a, Tree.Yes);
  }

  /** Unless the answer is "initial", a current id that is missing or is
      not a question fails on that id, whatever the answer. */
  lemma AdvanceUnknownCurrent(current: Option<string>, answer: Option<string>)
    requires answer != Some("initial")
    requires current.None? || Tree.FindNode(current.value).None?
    ensures Advance(current, answer) == Err(KeyError(current))
  {
  }

  /** At a question, a request without an answer fails on the missing key. */
  lemma AdvanceMissingAnswer(n: Tree.NodeId)
    ensures Advance(Some(Tree.NodeKey(n)), None) == Err(KeyError(None))
  {
    Tree.NodeKeyFound(n);
  }

  /** The symptom-check endpoint: without symptoms it answers with the
      error; otherwise it starts the quiz at the question the classifier's
      answer resolves to. `response` is the classifier's outcome, `None`
      for a failed call. The lookup falls back to the root question for an
      unknown id, as `questions.get` does in app.py; that fall-back is
      never taken, since the resolved id is always a question. */
  function StartFromSymptoms(symptoms: Option<string>, response: Option<string>): (r: Reply)
    ensures r.NoSymptoms? <==> symptoms.None? || symptoms.value == ""
    ensures !r.NoSymptoms? ==>
      Tree.FindNode(Cls.ResolveEntry(response)).Some?
      && r == Show(Tree.Ask(Tree.FindNode(Cls.ResolveEntry(response)).value))
  {
    if symptoms.None? || symptoms.value == "" then NoSymptoms
    else
      var next := Cls.ResolveEntry(response);
      var node := match Tree.FindNode(next) case Some(n) => n case None => Tree.Root;
      assert Tree.NodeKey(node) == next;
      AskQuestion(next, Tree.QuestionText(node))
  }

  /** For a classifier answer naming a category, the quiz starts at that
      category's entry question (`ChainHandlesEveryCategory` shows that
      question offers the category's diagnosis). */
  lemma SymptomCheckStartsAtCategory(symptoms: string, c: Cls.Category, before: string, after: string)
    requires symptoms != ""
    requires Cls.AllSpace(before) && Cls.AllSpace(after)
    ensures StartFromSymptoms(Some(symptoms), Some(before + Cls.Label(c) + after))
      == Show(Tree.Ask(Cls.EntryNode(c)))
  {
    Cls.ResolveLabel(c, before, after);
    Tree.NodeKeyFound(Cls.EntryNode(c));
  }

  /** A classifier answer that, once stripped, is none of the labels
      starts the quiz at the root question. */
  lemma SymptomCheckUnlabelled(symptoms: string, text: string)
    requires symptoms != ""
    requires Cls.FindCategory(Cls.Strip(text)).None?
    ensures StartFromSymptoms(Some(symptoms), Some(text)) == Show(Tree.Ask(Tree.Root))
  {
    Tree.NodeKeyFound(Tree.Root);
  }

  /** A failed classifier call starts the quiz at the root question. */
  lemma SymptomCheckFallsBackToRoot(symptoms: string)
    requires symptoms != ""
    ensures StartFromSymptoms(Some(symptoms), None) == Show(Tree.Ask(Tree.Root))
  {
    Tree.NodeKeyFound(Tree.Root);
  }
}
