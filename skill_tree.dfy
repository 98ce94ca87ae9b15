/** `getSkillTree`: one node per sub-topic of a subject, each showing the
    user's mastery and correct answers under the `subject-subTopic`
    progress key and the number of questions of that sub-topic, chained by
    edges in node order. The question collection is the `store`
    sequence. */
module SkillTree {
  import opened Common
  import opened QuestionModel
  import opened UserModel
  import opened GauntletRules

  /** "locked" is the declared default status; no node ends up locked. */
  datatype NodeStatus = Locked | Unlocked | Mastered

  datatype NodeProgress = NodeProgress(correct: nat, total: nat)

  datatype Node = Node(id: string, name: string, status: NodeStatus, progress: NodeProgress)

  datatype Edge = Edge(from: string, to: string)

  datatype SkillTreeResult = ServerError | Tree(nodes: seq<Node>, edges: seq<Edge>)

  /** The sub-topic of every question of `subject` that has one, in store
      order, repeats included. */
  function SubTopicValues(store: seq<Question>, subject: string): (r: seq<string>)
    ensures forall t :: t in r <==> exists i :: 0 <= i < |store| && store[i].subject == subject && store[i].subTopic == Some(t)
  {
    if store == [] then []
    else
      var rest := SubTopicValues(store[1..], subject);
      assert forall i :: 1 <= i < |store| ==> store[i] == store[1..][i - 1];
      if store[0].subject == subject && store[0].subTopic.Some? then [store[0].subTopic.value] + rest else rest
  }

  predicate NoRepeats(s: seq<string>)
  {
    forall i, j :: 0 <= i < j < |s| ==> s[i] != s[j]
  }

  /** The first occurrence of every value, in order. */
  function Dedup(s: seq<string>): (r: seq<string>)
    ensures NoRepeats(r)
    ensures forall x :: x in r <==> x in s
    decreases |s|
  {
    if s == [] then []
    else
      var r := Dedup(s[..|s| - 1]);
      assert forall x :: x in s <==> x in s[..|s| - 1] || x == s[|s| - 1];
      if s[|s| - 1] in r then r else r + [s[|s| - 1]]
  }

  /** `Question.distinct("subTopic", { subject })`: the distinct
      sub-topics of the subject, in order of first occurrence. */
  function SubTopics(store: seq<Question>, subject: string): (r: seq<string>)
    ensures NoRepeats(r)
    ensures forall t :: t in r <==> exists i :: 0 <= i < |store| && store[i].subject == subject && store[i].subTopic == Some(t)
  {
    Dedup(SubTopicValues(store, subject))
  }

  /** `Question.countDocuments({ subject, subTopic })`. */
  function CountQuestions(store: seq<Question>, subject: string, subTopic: string): nat
  {
    if store == [] then 0
    else (if store[0].subject == subject && store[0].subTopic == Some(subTopic) then 1 else 0)
         + CountQuestions(store[1..], subject, subTopic)
  }

  /** A sub-topic that some question of the subject carries counts at
      least that question. */
  lemma {:induction false} CountQuestionsPositive(store: seq<Question>, subject: string, subTopic: string, k: nat)
    requires k < |store| && store[k].subject == subject && store[k].subTopic == Some(subTopic)
    ensures CountQuestions(store, subject, subTopic) >= 1
  {
    if k > 0 {
      assert store[1..][k - 1] == store[k];
      CountQuestionsPositive(store[1..], subject, subTopic, k - 1);
    }
  }

  function NodeId(subject: string, subTopic: string): string
  {
    subject + "-" + subTopic
  }

  /** One node: the progress entry under `subject-subTopic` decides the
      status (mastered only when the entry says so) and the correct count
      (0 without an entry). */
  function MakeNode(store: seq<Question>, subject: string, subTopic: string, progress: Progress): Node
  {
    var key := NodeId(subject, subTopic);
    var entry := Lookup(progress, key);
    Node(key, subTopic,
         if entry.Some? && entry.value.mastered then Mastered else Unlocked,
         NodeProgress(if entry.Some? then entry.value.correct else 0, CountQuestions(store, subject, subTopic)))
  }

  /** The nodes, one per sub-topic, in sub-topic order. */
  function Nodes(store: seq<Question>, subject: string, progress: Progress): (nodes: seq<Node>)
  {
    var ts := SubTopics(store, subject);
    seq(|ts|, i requires 0 <= i < |ts| => MakeNode(store, subject, ts[i], progress))
  }

  /** Same subject, different sub-topics: different node ids. */
  lemma NodeIdInjective(subject: string, a: string, b: string)
    requires NodeId(subject, a) == NodeId(subject, b)
    ensures a == b
  {
    var n := |subject| + 1;
    assert NodeId(subject, a)[n..] == a;
    assert NodeId(subject, b)[n..] == b;
  }

  /** What each node shows: node i stands for the i-th distinct sub-topic,
      named by it, under the id `subject-subTopic`; it is never locked,
      mastered exactly when the user's entry for that id says so, counts
      the entry's correct answers (0 without one), and at least one
      question; and no two nodes share an id. */
  lemma NodesSpec(store: seq<Question>, subject: string, progress: Progress)
    ensures var nodes := Nodes(store, subject, progress);
            var ts := SubTopics(store, subject);
            && |nodes| == |ts|
            && (forall i :: 0 <= i < |nodes| ==>
                  var e := Lookup(progress, subject + "-" + ts[i]);
                  && nodes[i].id == subject + "-" + ts[i]
                  && nodes[i].name == ts[i]
                  && nodes[i].status != Locked
                  && (nodes[i].status == Mastered <==> e.Some? && e.value.mastered)
                  && nodes[i].progress.correct == (if e.Some? then e.value.correct else 0)
                  && nodes[i].progress.total == CountQuestions(store, subject, ts[i])
                  && nodes[i].progress.total >= 1)
            && (forall i, j :: 0 <= i < j < |nodes| ==> nodes[i].id != nodes[j].id)
  {
    var nodes := Nodes(store, subject, progress);
    var ts := SubTopics(store, subject);
    forall i | 0 <= i < |nodes|
      ensures nodes[i].progress.total >= 1
    {
      assert ts[i] in ts;
      var k :| 0 <= k < |store| && store[k].subject == subject && store[k].subTopic == Some(ts[i]);
      CountQuestionsPositive(store, subject, ts[i], k);
    }
    forall i, j | 0 <= i < j < |nodes|
      ensures nodes[i].id != nodes[j].id
    {
      if nodes[i].id == nodes[j].id {
        NodeIdInjective(subject, ts[i], ts[j]);
      }
    }
  }

  /** A node reads the entry the gauntlet writes: answering a question of
      the subject with a non-empty sub-topic adds one to that node's
      correct count exactly when the answer is right, and keeps its
      status. */
  lemma NodeAfterAttempt(store: seq<Question>, q: Question, progress: Progress, correct: bool)
    requires DistinctKeys(progress) && Truthy(q.subTopic)
    ensures var before := MakeNode(store, q.subject, q.subTopic.value, progress);
            var after := MakeNode(store, q.subject, q.subTopic.value, RecordAttempt(progress, ProgressKey(q), correct));
            && after.id == before.id == ProgressKey(q)
            && after.progress.correct == before.progress.correct + (if correct then 1 else 0)
            && after.status == before.status
            && after.progress.total == before.progress.total
  {
    RecordAttemptEntry(progress, ProgressKey(q), correct);
  }

  /** The edge loop: one edge from each node to the next. */
  method BuildEdges(nodes: seq<Node>) returns (edges: seq<Edge>)
    ensures |edges| == if |nodes| == 0 then 0 else |nodes| - 1
    ensures forall i :: 0 <= i < |edges| ==> edges[i] == Edge(nodes[i].id, nodes[i + 1].id)
  {
    edges := [];
    var i := 0;
    while i < |nodes| - 1
      invariant 0 <= i <= (if |nodes| == 0 then 0 else |nodes| - 1)
      invariant |edges| == i
      invariant forall k :: 0 <= k < i ==> edges[k] == Edge(nodes[k].id, nodes[k + 1].id)
    {
      edges := edges + [Edge(nodes[i].id, nodes[i + 1].id)];
      i := i + 1;
    }
  }

  /** `getSkillTree`: a missing user record fails when its progress is
      first read, which happens only when there is a sub-topic to build a
      node for; otherwise the nodes and the chain of edges. */
  method GetSkillTree(store: seq<Question>, subject: string, user: Option<UserState>) returns (r: SkillTreeResult)
    ensures r.ServerError? <==> user.None? && SubTopics(store, subject) != []
    ensures r.Tree? ==> r.nodes == Nodes(store, subject, if user.Some? then user.value.progress else [])
    ensures r.Tree? && user.None? ==> r.nodes == [] && r.edges == []
    ensures r.Tree? ==>
              && |r.edges| == (if |r.nodes| == 0 then 0 else |r.nodes| - 1)
              && (forall i :: 0 <= i < |r.edges| ==> r.edges[i] == Edge(r.nodes[i].id, r.nodes[i + 1].id))
  {
    if user.None? {
      if SubTopics(store, subject) != [] {
        return ServerError;
      }
      return Tree([], []);
    }
    var nodes := Nodes(store, subject, user.value.progress);
    var edges := BuildEdges(nodes);
    r := Tree(nodes, edges);
  }
}
