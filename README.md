# Medicure emergency triage, modelled in Dafny

The service walks a person giving first aid through a fixed yes/no
decision tree (`questions`, eight question nodes, and `diagnoses`, nine
diagnosis texts) and can pick the question to start from by asking a text
classifier to name one of seven emergency categories. This project models
that core as pure functions and proves the properties it relies on.

- `wrappers.dfy` (module `Wrappers`): `Option`, standing for a missing
  JSON field or a failed call, and `Result`, standing for a raised
  `KeyError`.
- `decision_tree.dfy` (module `DecisionTree`): the two tables, with their
  exact keys, texts and transitions. The keys of each table are the
  constructors of an enumeration (`NodeId`, `LeafId`), each with its string
  key, and `FindNode`/`FindLeaf` play the part of the dictionary lookup on a
  string. It proves that no transition dangles, that the `diag_` prefix
  agrees with membership in `diagnoses`, that the tree has no cycle and
  every walk from the root reaches a diagnosis after at most seven answers,
  that every node and diagnosis is reachable from the root, and that every
  diagnosis text is non-empty.
- `symptom_classifier.dfy` (module `SymptomClassifier`): how the
  classifier's answer becomes the id of the first question. This covers
  Python's `str.strip()` over the characters `str.isspace` accepts, the
  exact and case-sensitive match against the seven labels, the if/elif
  chain, and the fall-back to `"start"`.
- `triage_api.dfy` (module `TriageApi`): the two JSON endpoints. One is
  the quiz step `/api/answer` (`Advance`); the other is `/api/symptom_check`
  (`StartFromSymptoms`).

The depth bound: the longest walk from the root is `yes, yes, no, no, no,
no, no`. It asks seven questions before it reaches `diag_general_ok`. So
the bound the tables give is seven answers (`LongestPath`,
`RootTerminatesWithinSeven`). The model follows the tables.

The answer `"question"` is accepted by the node lookup at app.py:173,
because every node has a `question` entry. The question's text then
becomes the next id. No table holds that text, so the step ends in a
`KeyError` on the text (`AdvanceOnQuestionField`).

The classifier's URL at app.py:76 names the host
`generativelaanguage.googleapis.com`. The model does not depend on that
name, because the outcome of the call is a parameter. Wherever that host
does not answer, every call takes the failure path, which is `None` here,
and the quiz starts at the root.

## Model

| member | source | states |
|---|---|---|
| DecisionTree.FindNode | app.py:16-57 | A string found among the keys of `questions` is the key of the node returned |
| DecisionTree.FindLeaf | app.py:60-70 | A string found among the keys of `diagnoses` is the key of the leaf returned |
| DecisionTree.NodeKeyFound | app.py:16-57 | Every key of `questions` is found again as that node, and is not a key of `diagnoses` |
| DecisionTree.LeafKeyFound | app.py:60-70 | Every key of `diagnoses` is found again as that leaf, and is not a key of `questions` |
| DecisionTree.KeysRoundTrip | app.py:16-70 | The key of every state resolves back to that state, so keys are distinct and the tables share none |
| DecisionTree.FieldOfAnswer | app.py:173 | Looking up "yes" or "no" in a node gives that answer's target as the table lists it |
| DecisionTree.TargetIsKey | app.py:16-57 | Every "yes"/"no" entry of `questions` is the string key of the state `Next` names |
| DecisionTree.TransitionsClosed | app.py:16-57 | Every "yes"/"no" target in `questions` is a key of `questions` or `diagnoses`, naming the state `Next` gives |
| DecisionTree.NoLeafPrefix | app.py:175 | A string whose first character is not 'd' fails the `startswith('diag_')` test |
| DecisionTree.KeyPrefixes | app.py:16-70 | A key carries the `diag_` prefix exactly when it is a key of `diagnoses` |
| DecisionTree.LeafPrefixClassifies | app.py:175-183 | For every key of the tree, the prefix test agrees with membership in `diagnoses`, and no key is in both tables |
| DecisionTree.StartTextIsNotAKey | app.py:18 | The text of `start` is a key of neither table |
| DecisionTree.Q1aTextIsNotAKey | app.py:23 | The text of `q1_a` is a key of neither table |
| DecisionTree.Q1bTextIsNotAKey | app.py:28 | The text of `q1_b` is a key of neither table |
| DecisionTree.Q2aTextIsNotAKey | app.py:33 | The text of `q2_a` is a key of neither table |
| DecisionTree.Q3aTextIsNotAKey | app.py:38 | The text of `q3_a` is a key of neither table |
| DecisionTree.Q4aTextIsNotAKey | app.py:43 | The text of `q4_a` is a key of neither table |
| DecisionTree.Q5aTextIsNotAKey | app.py:48 | The text of `q5_a` is a key of neither table |
| DecisionTree.Q6aTextIsNotAKey | app.py:53 | The text of `q6_a` is a key of neither table |
| DecisionTree.QuestionTextIsNotAKey | app.py:16-57 | No question text is a key of either table |
| DecisionTree.RecommendationNonEmpty | app.py:60-70 | Every diagnosis text is non-empty |
| DecisionTree.RankDecreases | app.py:16-57 | Every transition strictly lowers a rank on the states, so the tree has no cycle |
| DecisionTree.HeightOfRoot | app.py:16-57 | The longest walk from `start` to a diagnosis takes exactly seven answers |
| DecisionTree.Visit | app.py:16-57 | Following answers from a state gives a walk that starts there and has at most one more state than there are answers |
| DecisionTree.VisitIsWalk | app.py:16-57 | Each step of a walk is at a question and follows the transition for that step's answer; a walk stops early only at a diagnosis |
| DecisionTree.VisitNeverRepeats | app.py:16-57 | No state appears twice on a walk |
| DecisionTree.VisitReachesDiagnosis | app.py:16-57 | A walk uses at most as many answers as the height of its start, and with that many answers it ends at a diagnosis |
| DecisionTree.RootTerminatesWithinSeven | app.py:16-57 | Any seven answers from `start` reach a diagnosis |
| DecisionTree.LongestPath | app.py:17-55 | The answers yes, yes, no, no, no, no, no visit all of `start`, `q1_a`, `q2_a` … `q6_a` and end at `diag_general_ok` |
| DecisionTree.VisitExtend | app.py:173 | One more answer at a question extends the walk by that answer's transition |
| DecisionTree.UniqueParent | app.py:16-57 | No transition leads back to `start`, and every state but `start` has at most one incoming transition |
| DecisionTree.ParentLeadsBack | app.py:16-70 | Every state but `start` is entered by the transition `Parent` names, so with `UniqueParent` it has exactly one incoming transition |
| DecisionTree.AllReachable | app.py:16-70 | Every node and every diagnosis is reached from `start` by some sequence of answers |
| SymptomClassifier.StripLeading | app.py:105 | The result is a suffix of the input, what was removed is all whitespace, and the result does not start with whitespace |
| SymptomClassifier.StripTrailing | app.py:105 | The result is a prefix of the input, what was removed is all whitespace, and the result does not end with whitespace |
| SymptomClassifier.StripTrimmed | app.py:105 | What `strip()` keeps has no whitespace at either end |
| SymptomClassifier.StripLeadingPadded | app.py:105 | Removing leading whitespace in front of a text that starts with a non-space gives that text |
| SymptomClassifier.StripTrailingPadded | app.py:105 | Removing trailing whitespace after a text that ends with a non-space gives that text |
| SymptomClassifier.StripPadded | app.py:105 | A non-empty trimmed text padded with whitespace on both sides strips back to itself |
| SymptomClassifier.StripIdempotent | app.py:105 | Stripping twice is stripping once |
| SymptomClassifier.FindCategory | app.py:107 | A string found among the keys of `diagnosis_categories` is that category's label |
| SymptomClassifier.LabelFound | app.py:79-87 | Every label is found again as its own category |
| SymptomClassifier.ResolveEntry | app.py:100-127 | The id returned, after a failed call or for any answer, is always a key of `questions` |
| SymptomClassifier.ChainLandsOnQuestion | app.py:109-124 | Every outcome of the chain, the fall-through to `start` included, is a key of `questions` |
| SymptomClassifier.ChainHandlesEveryCategory | app.py:79-122 | Every label of `diagnosis_categories` has its own branch in the chain, which sends it to a question other than `start`, and that question offers the category's diagnosis as one of its answers |
| SymptomClassifier.LabelTrimmed | app.py:79-87 | Every label is non-empty and has no whitespace at either end |
| SymptomClassifier.ResolveLabel | app.py:105-122 | A label with any whitespace around it resolves to its category's entry question, and not to `start` |
| SymptomClassifier.ResolveStrippedLabel | app.py:105-122 | Any answer whose stripped text is a label resolves to that category's entry question |
| SymptomClassifier.ResolveFallback | app.py:105-127 | The result is `start` exactly when the call failed or the stripped answer is not one of the labels |
| SymptomClassifier.ResolveUnlabelled | app.py:105-124 | A non-empty trimmed answer that is no label starts at `start` |
| SymptomClassifier.ResolveFailedCall | app.py:125-127 | A failed call starts at `start` |
| SymptomClassifier.ResolveNoMatch | app.py:107-124 | The answer "No Match" starts at `start` |
| SymptomClassifier.ResolveEmptyAnswer | app.py:107-124 | An empty answer starts at `start` |
| SymptomClassifier.ResolveWrongCase | app.py:107-124 | The match is case-sensitive: "heart attack" starts at `start` |
| SymptomClassifier.ResolvePaddedLabel | app.py:105-118 | " Stroke\n" resolves to `q4_a` |
| TriageApi.NodeAt | app.py:173 | `questions[key]` succeeds only on a key of `questions`, and otherwise fails on that key |
| TriageApi.FieldAt | app.py:173 | `node[key]` fails on exactly the key it was given |
| TriageApi.NextKey | app.py:168-173 | The answer "initial" leads to `start` whatever the current id is |
| TriageApi.Route | app.py:175-188 | A failed lookup in either table fails on the key being routed |
| TriageApi.Advance | app.py:163-188 | The step never answers with the no-symptoms error, and a question it asks is a node of `questions` shown with that node's own text |
| TriageApi.AdvanceInitial | app.py:168-188 | The answer "initial" replies with the `start` question and its text, whatever the current id |
| TriageApi.RouteKnownKey | app.py:175-188 | A question key is shown as that question with its text; a diagnosis key is shown as that diagnosis's text |
| TriageApi.RouteUnknownKey | app.py:175-183 | A string in neither table fails on that string, whichever branch of the prefix test it takes |
| TriageApi.RouteSucceedsExactlyOnKeys | app.py:175-188 | Routing succeeds exactly on the keys of the two tables, and then shows that key's state |
| TriageApi.AdvanceFollowsTree | app.py:163-188 | Answering "yes" or "no" at a question replies with the state that the answer's transition leads to |
| TriageApi.NextKeyOfMove | app.py:173 | Answering "yes" or "no" at a question gives that answer's target in the table |
| TriageApi.AdvanceOnQuestionField | app.py:173-183 | The answer "question" at a node fails with a `KeyError` on that node's question text |
| TriageApi.AdvanceUnknownAnswer | app.py:165-173 | At a question, any answer other than "initial", "yes", "no" and "question" fails with a `KeyError` on the answer |
| TriageApi.AdvanceSucceedsExactly | app.py:163-188 | The step succeeds exactly when the answer is "initial", or the current id is a question and the answer is "yes" or "no" |
| TriageApi.AdvanceAlongVisit | app.py:163-188 | Replaying answers from `start` through the step follows the tree's walk reply by reply |
| TriageApi.OpeningQuestion | app.py:168-170 | "initial" at "initial" replies with `start` and "Are they conscious and responsive?" |
| TriageApi.PathNoYes | app.py:17-31 | "no" at `start` asks `q1_b`; "yes" at `q1_b` gives the unconscious-but-breathing diagnosis |
| TriageApi.PathYesYesYes | app.py:17-36 | "yes" at `start`, `q1_a` and `q2_a` asks `q1_a`, then `q2_a`, then gives the bleeding diagnosis |
| TriageApi.AdvanceUnknownCurrent | app.py:165-173 | Unless the answer is "initial", a current id that is missing or is not a question fails on that id, whatever the answer |
| TriageApi.AdvanceMissingAnswer | app.py:165-173 | At a question, a request without an answer fails on the missing key |
| TriageApi.StartFromSymptoms | app.py:140-155 | Missing or empty symptoms, and only those, give the error reply. Otherwise the classifier's answer resolves to a question and the reply is exactly that question, with its id and its own text, so the fall-back of `questions.get` is never used |
| TriageApi.SymptomCheckStartsAtCategory | app.py:105-155 | With symptoms and a classifier answer naming a category, the quiz starts at that category's entry question |
| TriageApi.SymptomCheckUnlabelled | app.py:105-155 | With symptoms, a classifier answer that strips to none of the labels starts the quiz at `start` |
| TriageApi.SymptomCheckFallsBackToRoot | app.py:125-155 | With symptoms and a failed call, the quiz starts at `start` |

## Left out

- The HTTP request to the classifier (app.py:76, 92-104): its outcome is the parameter `response`, where `None` stands for every exception the handler catches. `requests.post` is called without a timeout, so the call can block without ever raising; the model assumes it always returns.
- The prompt text (app.py:90): it matters only to the remote classifier.
- Flask routing, `request.json` and `jsonify` (app.py:130-132, 135, 140, 158, 163): the endpoints are functions from the request's fields to a `Reply`. A request body that is not a JSON object is not modelled.
- The `GEMINI_API_KEY` check at start-up (app.py:9-11), the error `print` (app.py:126) and `app.run` (app.py:189-190): configuration and I/O.
- JSON values that are not strings (numbers, lists) are not modelled. Each field is an optional string, where `None` stands for a field that is missing or `null`, since `data.get` returns `None` for both.
- TriageApi.Advance: a failed lookup is one `KeyError` carrying the key. The model does not say which dictionary raised it, and a `KeyError` escaping the handler is not turned into an HTTP 500 reply.
