/** The moves that stand for a whole request or the first half of a heartbeat: they do what the
    request's own calls do when nothing gets in between. */
module WholeRequests {
  import opened Basics
  import opened Incidents
  import opened Lifecycle
  import opened Requests
  import opened Interleaving

  lemma AddThenRemove(requests: multiset<Request>, r: Request)
    ensures requests + multiset{r} - multiset{r} + multiset{} == requests
  {
  }

  lemma AddThenReplace(requests: multiset<Request>, r: Request, next: Request)
    ensures requests + multiset{r} - multiset{r} + multiset{next} == requests + multiset{next}
  {
  }

  lemma ReadMove(s: State, a: Action, r: Request)
    requires Enabled(s, RequestRead(a)) && Read(s.w, a) == Some(r)
    ensures Next(s, RequestRead(a)) == s.(requests := s.requests + multiset{r})
  {
  }

  lemma LastWrite(s: State, r: Request, at: int)
    requires Update(s.w, r, at).next == None && !r.Recording?
    ensures Next(s.(requests := s.requests + multiset{r}), RequestWrite(r, at)) == s.(w := Update(s.w, r, at).w)
  {
    AddThenRemove(s.requests, r);
  }

  lemma FirstWrite(s: State, r: Request, next: Request, at: int)
    requires Update(s.w, r, at).next == Some(next) && !r.Recording?
    ensures Next(s.(requests := s.requests + multiset{r}), RequestWrite(r, at))
         == s.(w := Update(s.w, r, at).w, requests := s.requests + multiset{next})
  {
    AddThenReplace(s.requests, r, next);
  }

  lemma RecordingWrite(s: State, r: Request, at: int)
    requires r.Recording? && Update(s.w, r, at).next == None
    ensures Next(s.(requests := s.requests + multiset{r}), RequestWrite(r, at))
         == s.(w := Update(s.w, r, at).w,
               beats := if Update(s.w, r, at).moved then s.beats + multiset{Finding(r.id, r.status)} else s.beats)
  {
    AddThenRemove(s.requests, r);
  }

  lemma ApiMove(s: State, a: Action)
    requires Enabled(s, Api(a))
    ensures Next(s, Api(a)) == s.(w := Step(s.w, a))
  {
  }

  /** An edit, a pause, a resume, a token, an acknowledgement, a resolution: the read and the one
      write, if there is one, are the whole request. */
  lemma EditIsItsCalls(s: State, a: Action, at: int)
    requires s.w.rows.Keys == s.w.results.Keys && Enabled(s, Api(a)) && Enabled(s, RequestRead(a))
    requires IsEdit(a) || a.AcknowledgeIncident? || a.ResolveIncident?
    ensures match Read(s.w, a)
            case Some(r) => Next(Next(s, RequestRead(a)), RequestWrite(r, at)) == Next(s, Api(a))
            case None => Next(s, RequestRead(a)) == Next(s, Api(a)) == s
  {
    EditIsReadThenWrite(s.w, a, at);
    ApiMove(s, a);
    match Read(s.w, a) {
      case Some(r) =>
        ReadMove(s, a, r);
        LastWrite(s, r, at);
      case None =>
        assert s.requests + multiset{} == s.requests;
    }
  }

  /** A manual test: the read, the result and the stamp. */
  lemma TestIsItsCalls(s: State, a: Action)
    requires s.w.rows.Keys == s.w.results.Keys && a.ManualTest? && Read(s.w, a).Some?
    ensures var store := Read(s.w, a).value;
            var stamp := Update(s.w, store, a.at).next;
            stamp.Some?
            && Next(Next(Next(s, RequestRead(a)), RequestWrite(store, a.at)), RequestWrite(stamp.value, a.at))
               == Next(s, Api(a))
  {
    TestIsReadThenWrites(s.w, a);
    var store := Read(s.w, a).value;
    var stored := Update(s.w, store, a.at);
    ApiMove(s, a);
    ReadMove(s, a, store);
    FirstWrite(s, store, stored.next.value, a.at);
    LastWrite(s.(w := stored.w), stored.next.value, a.at);
  }

  /** A heartbeat up to its hook: the look-up by token, the result and the row update. */
  lemma BeatIsItsCalls(s: State, id: MonitorId, pushed: string, at: int)
    requires s.w.rows.Keys == s.w.results.Keys && Enabled(s, Beat(id, pushed, at))
    requires s.w.rows[id].hasToken && s.w.rows[id].enabled
    ensures var a := Heartbeat(id, pushed, at);
            Read(s.w, a).Some?
            && var store := Read(s.w, a).value;
               var record := Update(s.w, store, at).next;
               record.Some?
               && Next(Next(Next(s, RequestRead(a)), RequestWrite(store, at)), RequestWrite(record.value, at))
                  == Next(s, Beat(id, pushed, at))
  {
    var a := Heartbeat(id, pushed, at);
    BeatIsReadThenWrites(s.w, a);
    var store := Read(s.w, a).value;
    var stored := Update(s.w, store, at);
    ReadMove(s, a, store);
    FirstWrite(s, store, stored.next.value, at);
    RecordingWrite(s.(w := stored.w), stored.next.value, at);
  }
}
