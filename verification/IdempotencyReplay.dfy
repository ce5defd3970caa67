/** What a lookup answers, and that a stored answer is replayed for a day. */
module IdempotencyReplay {
  import opened Common
  import opened Idempotency

  /** 24 hours in ticks of 100 nanoseconds. */
  const DAY: int := 24 * 60 * 60 * 10_000_000

  predicate LiveAt(table: Table, key: (string, string), now: int) {
    key in table && now < table[key].record.expiresAt
  }

  /** The lookup step: other methods pass, a missing or overlong key is refused, a live row answers the same
      request with what it holds and refuses another one, and without a live row the handler runs. */
  lemma LookupDecides(s: State, id: RequestId)
    requires id in s.sessions && s.sessions[id].Started?
    ensures var call := s.sessions[id].call;
      var x, key := Next(s, FindKey(id)).sessions[id], (call.actor, call.key);
      var fits, held := 1 <= |call.key| <= 128, LiveAt(s.table, key, s.now);
      && (x == Finished(call, PassedThrough) <==> !call.mutation)
      && (x == Finished(call, BadKey) <==> call.mutation && !fits)
      && (x == Executing(call, Miss(s.now, s.steps)) <==> call.mutation && fits && !held)
      && (x == Finished(call, Reused) <==>
            call.mutation && fits && held && s.table[key].record.requestHash != call.hash)
      && (x.Finished? && x.outcome.Replayed? <==>
            call.mutation && fits && held && s.table[key].record.requestHash == call.hash)
      && (x.Finished? && x.outcome.Replayed? ==>
            var r := s.table[key].record; x.outcome == Replayed(r.status, r.contentType, r.body))
  {
  }

  // ----- Bodies

  /** Letter by letter the same, whatever the case. */
  predicate SameLetters(s: string, t: string) {
    |s| == |t| && forall i | 0 <= i < |s| ::
      s[i] == t[i] || ('A' <= s[i] <= 'Z' && s[i] - 'A' + 'a' == t[i])
  }

  ghost predicate Splits(s: string, pre: string, mid: string, post: string) { s == pre + mid + post }

  ghost predicate MentionsJson(contentType: string) {
    exists pre, mid, post :: Splits(contentType, pre, mid, post) && SameLetters(mid, "json")
  }

  lemma JsonIsMentioned(s: string, i: nat)
    requires i + 4 <= |s| && JsonAt(s, i)
    ensures MentionsJson(s)
  {
    var mid := s[i..i + 4];
    assert mid == [s[i], s[i + 1], s[i + 2], s[i + 3]];
    assert SameLetters(mid, "json");
    assert Splits(s, s[..i], mid, s[i + 4..]);
  }

  lemma MentionIsFound(s: string, pre: string, mid: string, post: string)
    requires Splits(s, pre, mid, post) && SameLetters(mid, "json")
    ensures IsJson(Some(s))
  {
    var i := |pre|;
    assert s[i] == mid[0] && s[i + 1] == mid[1] && s[i + 2] == mid[2] && s[i + 3] == mid[3];
    assert "json"[0] == 'j' && "json"[1] == 's' && "json"[2] == 'o' && "json"[3] == 'n';
    assert JsonAt(s, i);
  }

  lemma IsJsonMeans(contentType: Option<string>)
    ensures IsJson(contentType) <==> contentType.Some? && MentionsJson(contentType.value)
  {
    hide SameLetters, Splits, JsonAt;
    if IsJson(contentType) {
      var s := contentType.value;
      var i :| 0 <= i <= |s| - 4 && JsonAt(s, i);
      JsonIsMentioned(s, i);
    }
    if contentType.Some? && MentionsJson(contentType.value) {
      var pre, mid, post :| Splits(contentType.value, pre, mid, post) && SameLetters(mid, "json");
      MentionIsFound(contentType.value, pre, mid, post);
    }
  }

  /** The body a replay carries: that of the response, if it is non-empty and declared as JSON. */
  ghost function KeptBody(r: Response): Option<string> {
    if r.body.Some? && |r.body.value| > 0 && r.contentType.Some? && MentionsJson(r.contentType.value)
    then Some(r.body.value) else None
  }

  lemma StoredBodyIsKept(r: Response)
    ensures StoredBody(r) == KeptBody(r)
  {
    hide IsJson, MentionsJson;
    IsJsonMeans(r.contentType);
  }

  // ----- Runs

  /** A request has executed and its store step finds the key free. */
  ghost predicate Storing(s: State, id: RequestId, call: Call, r: Response, miss: Miss) {
    && id in s.sessions && s.sessions[id] == Executed(call, r, miss)
    && r.status < 500 && (call.actor, call.key) !in s.table
  }

  lemma StoreInserts(s: State, id: RequestId, call: Call, r: Response, miss: Miss)
    requires Storing(s, id, call, r, miss)
    ensures var t := Next(s, Store(id, false)); var key := (call.actor, call.key);
      && key in t.table
      && t.table[key].record ==
         Record(call.actor, call.key, call.hash, r.status, r.contentType, KeptBody(r), s.now, s.now + DAY)
  {
    hide StoredBody, KeptBody;
    StoredBodyIsKept(r);
  }

  /** After an answer was stored at time t, every later lookup by that actor under that key before t + 24 h
      is answered without the handler: the same request gets the stored status, type and body, another
      request is refused. */
  lemma StoredAnswerIsReplayed(s: State, id: RequestId, call: Call, r: Response, miss: Miss, steps: seq<Step>,
                               later: RequestId, again: Call)
    requires Storing(s, id, call, r, miss)
    requires var t := Run(Next(s, Store(id, false)), steps);
      && later in t.sessions && t.sessions[later] == Started(again) && t.now < s.now + DAY
    requires again.mutation && again.actor == call.actor && again.key == call.key && 1 <= |call.key| <= 128
    ensures var t := Run(Next(s, Store(id, false)), steps);
      Next(t, FindKey(later)).sessions[later] ==
      Finished(again, if again.hash == call.hash then Replayed(r.status, r.contentType, KeptBody(r)) else Reused)
  {
    hide Run, KeptBody, Storing;
    StoreInserts(s, id, call, r, miss);
    var key := (call.actor, call.key);
    RunKeepsRows(Next(s, Store(id, false)), steps, key);
    LookupDecides(Run(Next(s, Store(id, false)), steps), later);
  }
}
