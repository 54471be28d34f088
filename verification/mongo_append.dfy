/** Racing appends to the Mongo-backed journal (packages/kernel/src/agentx_kernel/stores/mongo.py): each writer
    reads the highest sequence number, then inserts under two unique indexes, up to eight times. */
module MongoAppend {
  import opened Sequences
  import opened Journal
  import opened Wrappers

  const MAX_SEQ_RETRIES := 8

  /** One appender. `tries` counts failed inserts; `started` is the length of the instance's log
      when the call began (an auxiliary value no step tests). */
  datatype Writer =
    | Ready(event: Event, tries: nat, started: nat)
    | Holding(event: Event, claim: nat, tries: nat, started: nat)
    | Stored(doc: Event)
    | DuplicateKey(refused: Event)
    | Contention(inst: string, started: nat)
    | Unused

  datatype State = State(docs: seq<Event>, writers: seq<Writer>)

  function MaxSeq(docs: seq<Event>, i: string): nat {
    if docs == [] then 0 else
      var last, rest := docs[|docs| - 1], MaxSeq(docs[..|docs| - 1], i);
      if last.inst == i && last.seqNo > rest then last.seqNo else rest
  }

  predicate SeqTaken(docs: seq<Event>, e: Event) {
    exists p :: 0 <= p < |docs| && docs[p].inst == e.inst && docs[p].seqNo == e.seqNo
  }

  ghost predicate WriterStep(s: State, w: nat, s': State)
    requires w < |s.writers|
  {
    match s.writers[w]
    case Unused =>
      exists e: Event :: s' == s.(writers := s.writers[w := Ready(e, 0, |Log(s.docs, e.inst)|)])
    case Ready(e, tries, started) =>
      s' == s.(writers := s.writers[w := Holding(e, MaxSeq(s.docs, e.inst) + 1, tries, started)])
    case Holding(e, claim, tries, started) =>
      var doc := e.(seqNo := claim);
      var seqTaken, keyTaken := SeqTaken(s.docs, doc), KeyUsed(s.docs, e);
      if !seqTaken && !keyTaken then
        s' == State(s.docs + [doc], s.writers[w := Stored(doc)])
      else
        || (keyTaken && s' == s.(writers := s.writers[w := DuplicateKey(e)]))
        || (seqTaken && s' == s.(writers := s.writers[w :=
               if tries + 1 < MAX_SEQ_RETRIES then Ready(e, tries + 1, started)
               else Contention(e.inst, started)]))
    case _ => false
  }

  /** What a writer may do next; when both indexes reject an insert, either may be reported. */
  ghost predicate Step(s: State, s': State) {
    exists w :: 0 <= w < |s.writers| && WriterStep(s, w, s')
  }

  ghost predicate Init(s: State) {
    s.docs == [] && forall w :: 0 <= w < |s.writers| ==> s.writers[w] == Unused
  }

  ghost predicate WriterOk(docs: seq<Event>, w: Writer) {
    match w
    case Ready(e, tries, started) => tries < 8 && |Log(docs, e.inst)| >= started + tries
    case Holding(e, claim, tries, started) => tries < 8 && started + tries < claim <= |Log(docs, e.inst)| + 1
    case Stored(doc) => doc in docs
    case DuplicateKey(e) => KeyUsed(docs, e)
    case Contention(i, started) => |Log(docs, i)| >= started + 8
    case _ => true
  }

  /** Every reachable state: the log is valid, a refused key is in it, losing all eight races takes eight
      foreign appends, and documents and successful writers correspond one to one. */
  ghost predicate Inv(s: State) {
    && Valid(s.docs)
    && (forall w :: 0 <= w < |s.writers| ==> WriterOk(s.docs, s.writers[w]))
    && (forall p :: 0 <= p < |s.docs| ==> Stored(s.docs[p]) in s.writers)
    && (forall v, w :: 0 <= v < w < |s.writers| && s.writers[v].Stored? ==> s.writers[v] != s.writers[w])
  }

  lemma {:induction false} MaxSeqCounts(docs: seq<Event>, i: string)
    requires Dense(docs)
    ensures MaxSeq(docs, i) == |Log(docs, i)|
  {
    if docs == [] {
    } else {
      DenseFront(docs);
      MaxSeqCounts(docs[..|docs| - 1], i);
      FilterSnoc(OfInstance(i), docs[..|docs| - 1], docs[|docs| - 1]);
    }
  }

  /** A claimed number is free exactly when it is the next one. */
  lemma ClaimFree(docs: seq<Event>, e: Event)
    requires Dense(docs) && 1 <= e.seqNo <= |Log(docs, e.inst)| + 1
    ensures SeqTaken(docs, e) <==> e.seqNo <= |Log(docs, e.inst)|
  {
    var log := Log(docs, e.inst);
    LogNumbered(docs, e.inst);
    if e.seqNo <= |log| {
      var d := log[e.seqNo - 1];
      FilterMember(OfInstance(e.inst), docs, d);
      var p :| 0 <= p < |docs| && docs[p] == d;
      assert docs[p].inst == e.inst && docs[p].seqNo == e.seqNo;
    } else {
      forall p | 0 <= p < |docs| && docs[p].inst == e.inst ensures docs[p].seqNo < e.seqNo {
        SeqFollowsPosition(docs, p, |docs|);
        assert docs[..|docs|] == docs;
      }
    }
  }

  /** Refinement: a step of any writer leaves the log alone or is one atomic append to it. */
  lemma StepIsAppend(s: State, s': State)
    requires Inv(s) && Step(s, s')
    ensures s'.docs == s.docs || exists e :: AppendTo(s.docs, e) == Some(s'.docs)
  {
    var w :| 0 <= w < |s.writers| && WriterStep(s, w, s');
    match s.writers[w]
    case Holding(e, claim, tries, started) =>
      assert WriterOk(s.docs, s.writers[w]);
      ClaimFree(s.docs, e.(seqNo := claim));
      if s'.docs != s.docs { assert AppendTo(s.docs, e) == Some(s'.docs); }
    case _ =>
  }

  lemma UnchangedDocs(s: State, w: nat, s': State)
    requires Inv(s) && w < |s.writers| && !s.writers[w].Stored?
    requires s'.docs == s.docs && |s'.writers| == |s.writers|
    requires s'.writers == s.writers[w := s'.writers[w]] && !s'.writers[w].Stored?
    requires WriterOk(s.docs, s'.writers[w])
    ensures Inv(s')
  {
    forall p | 0 <= p < |s.docs| ensures Stored(s.docs[p]) in s'.writers {
      var v :| 0 <= v < |s.writers| && s.writers[v] == Stored(s.docs[p]);
      assert s'.writers[v] == s.writers[v];
    }
  }

  lemma WriterOkGrows(docs: seq<Event>, doc: Event, w: Writer)
    requires WriterOk(docs, w)
    ensures WriterOk(docs + [doc], w)
  {
    match w
    case Ready(e, _, _) => FilterSnoc(OfInstance(e.inst), docs, doc);
    case Holding(e, _, _, _) => FilterSnoc(OfInstance(e.inst), docs, doc);
    case Contention(i, _) => FilterSnoc(OfInstance(i), docs, doc);
    case DuplicateKey(e) =>
      var p :| 0 <= p < |docs| && docs[p].idem == e.idem;
      assert (docs + [doc])[p].idem == e.idem;
    case _ =>
  }

  lemma FreshDoc(docs: seq<Event>, doc: Event)
    requires Dense(docs) && doc.seqNo == |Log(docs, doc.inst)| + 1
    ensures doc !in docs
  {
    forall p | 0 <= p < |docs| ensures docs[p] != doc {
      SeqFollowsPosition(docs, p, |docs|);
      assert docs[..|docs|] == docs;
    }
  }

  lemma StillStored(s: State, w: nat, x: Event, doc: Event)
    requires Stored(x) in s.writers && w < |s.writers| && !s.writers[w].Stored?
    ensures Stored(x) in s.writers[w := Stored(doc)]
  {
    var v :| 0 <= v < |s.writers| && s.writers[v] == Stored(x);
    assert s.writers[w := Stored(doc)][v] == Stored(x);
  }

  lemma DocsStored(s: State, w: nat, doc: Event)
    requires Inv(s) && w < |s.writers| && !s.writers[w].Stored?
    ensures forall p :: 0 <= p < |s.docs + [doc]| ==> Stored((s.docs + [doc])[p]) in s.writers[w := Stored(doc)]
  {
    var docs', writers' := s.docs + [doc], s.writers[w := Stored(doc)];
    forall p | 0 <= p < |docs'| ensures Stored(docs'[p]) in writers' {
      if p < |s.docs| {
        StillStored(s, w, s.docs[p], doc);
      } else {
        assert writers'[w] == Stored(doc);
      }
    }
  }

  lemma StoredApart(s: State, w: nat, doc: Event)
    requires Inv(s) && w < |s.writers| && !s.writers[w].Stored? && doc !in s.docs
    ensures var writers' := s.writers[w := Stored(doc)];
            forall v, u :: 0 <= v < u < |writers'| && writers'[v].Stored? ==> writers'[v] != writers'[u]
  {
    var writers' := s.writers[w := Stored(doc)];
    forall v, u | 0 <= v < u < |writers'| && writers'[v].Stored? ensures writers'[v] != writers'[u] {
      assert WriterOk(s.docs, s.writers[v]) && WriterOk(s.docs, s.writers[u]);
    }
  }

  lemma StoredDoc(s: State, w: nat, doc: Event, s': State)
    requires Inv(s) && w < |s.writers| && s.writers[w].Holding?
    requires s' == State(s.docs + [doc], s.writers[w := Stored(doc)])
    requires doc.seqNo == |Log(s.docs, doc.inst)| + 1 && !KeyUsed(s.docs, doc)
    ensures Inv(s')
  {
    ValidSnoc(s.docs, doc);
    FreshDoc(s.docs, doc);
    DocsStored(s, w, doc);
    StoredApart(s, w, doc);
    forall v | 0 <= v < |s.writers| ensures WriterOk(s'.docs, s'.writers[v]) {
      assert WriterOk(s.docs, s.writers[v]);
      WriterOkGrows(s.docs, doc, s.writers[v]);
    }
  }

  lemma StepKeepsInv(s: State, s': State)
    requires Inv(s) && Step(s, s')
    ensures Inv(s')
  {
    var w :| 0 <= w < |s.writers| && WriterStep(s, w, s');
    assert WriterOk(s.docs, s.writers[w]);
    match s.writers[w]
    case Unused => UnchangedDocs(s, w, s');
    case Ready(e, _, _) =>
      MaxSeqCounts(s.docs, e.inst);
      UnchangedDocs(s, w, s');
    case Holding(e, claim, tries, started) =>
      var doc := e.(seqNo := claim);
      ClaimFree(s.docs, doc);
      if s'.docs == s.docs {
        UnchangedDocs(s, w, s');
      } else {
        StoredDoc(s, w, doc, s');
      }
    case _ =>
  }

  /** What an insert does: it stores exactly if the claimed number is the next one and no document has the
      key; it reports a duplicate only if one has; else the number is taken, and the eighth such loss ends
      the call. */
  lemma InsertDecides(s: State, w: nat, s': State)
    requires Inv(s) && w < |s.writers| && s.writers[w].Holding? && WriterStep(s, w, s')
    ensures var Holding(e, claim, tries, _) := s.writers[w];
            var after, keyTaken := s'.writers[w], e.idem.Some? && exists d :: d in s.docs && d.idem == e.idem;
            && (after.Stored? <==> claim == |Log(s.docs, e.inst)| + 1 && !keyTaken)
            && (after.Stored? ==> after.doc == e.(seqNo := claim) && s'.docs == s.docs + [after.doc])
            && (after.DuplicateKey? ==> after.refused == e && keyTaken && s'.docs == s.docs)
            && (after.Ready? ==> after.event == e && after.tries == tries + 1 < 8)
            && (after.Contention? ==> after.inst == e.inst && tries == 7)
            && (after.Ready? || after.Contention? ==> claim <= |Log(s.docs, e.inst)| && s'.docs == s.docs)
            && !after.Holding? && !after.Unused?
  {
    var Holding(e, claim, _, _) := s.writers[w];
    assert WriterOk(s.docs, s.writers[w]);
    ClaimFree(s.docs, e.(seqNo := claim));
    KeyUsedIff(s.docs, e);
  }

  /** What a writer claims: the number after those its instance has. */
  lemma ReadyClaimsNext(s: State, w: nat, s': State)
    requires Inv(s) && w < |s.writers| && s.writers[w].Ready? && WriterStep(s, w, s')
    ensures var e := s.writers[w].event;
            && s'.docs == s.docs && s'.writers[w].Holding? && s'.writers[w].event == e
            && s'.writers[w].claim == |Log(s.docs, e.inst)| + 1 && s'.writers[w].tries == s.writers[w].tries
  {
    MaxSeqCounts(s.docs, s.writers[w].event.inst);
  }

  ghost predicate Run(states: seq<State>) {
    && states != [] && Init(states[0])
    && forall k :: 0 < k < |states| ==> Step(states[k - 1], states[k])
  }

  /** Over every interleaving of any number of writers. */
  lemma {:induction false} RacingAppends(states: seq<State>)
    requires Run(states)
    ensures Inv(states[|states| - 1])
  {
    if |states| == 1 {
    } else {
      var front := states[..|states| - 1];
      RacingAppends(front);
      assert Step(states[|states| - 2], states[|states| - 1]);
      StepKeepsInv(states[|states| - 2], states[|states| - 1]);
    }
  }
}
