/** The order of sources for the master password, and the rule for storing it (src/master.rs). */
module Master {
  import opened Basics

  datatype Source = Store | Prompt

  /** What reading the store or showing the prompt came to. */
  type StoreReply = Result<Option<Bytes>, string>
  type PromptReply = Result<Bytes, string>

  type Resolution = Result<(Bytes, Source), string>

  predicate ReadsStore(touchId: bool, skipStore: bool) {
    touchId && !skipStore
  }

  /** Whether what the store said is used as it is. */
  predicate StoreAnswers(touchId: bool, skipStore: bool, store: StoreReply) {
    && ReadsStore(touchId, skipStore)
    && store.Ok? && store.value.Some?
    && |store.value.value| <= MAX_PASSPHRASE_BYTES
  }

  function Resolve(touchId: bool, skipStore: bool, store: StoreReply, prompt: PromptReply): Resolution {
    if StoreAnswers(touchId, skipStore, store) then Ok((store.value.value, Store))
    else if prompt.Err? then Err(prompt.error)
    else if prompt.value == [] then Err("no master password entered")
    else Ok((prompt.value, Prompt))
  }

  /** A failed prompt is never an empty answer, and an oversized stored value is never used. */
  lemma ResolutionsAreAnswers(touchId: bool, skipStore: bool, store: StoreReply, prompt: PromptReply)
    ensures var r := Resolve(touchId, skipStore, store, prompt);
      && (r.Ok? && r.value.1 == Prompt <==>
            !StoreAnswers(touchId, skipStore, store) && prompt.Ok? && prompt.value != [])
      && (r.Ok? && r.value.1 == Store ==> !skipStore && |r.value.0| <= MAX_PASSPHRASE_BYTES)
      && (r.Ok? && r.value.1 == Prompt ==> r.value.0 == prompt.value)
  {
  }

  /** One attempt to keep a candidate: whether it opened the vault, and whether writing it worked. */
  datatype Attempt = Attempt(secret: Bytes, opens: bool, written: bool)

  function Seed(kept: Option<Bytes>, a: Attempt): (Option<Bytes>, bool) {
    if !a.opens then (kept, false)
    else if !a.written then (kept, false)
    else (Some(a.secret), true)
  }

  function Seeds(kept: Option<Bytes>, attempts: seq<Attempt>): Option<Bytes>
    decreases |attempts|
  {
    if attempts == [] then kept else Seeds(Seed(kept, attempts[0]).0, attempts[1..])
  }

  /** Over any run of attempts, what is kept is what was there before or a candidate that opened
      the vault, and then the last such candidate that could be written. */
  lemma {:induction false} OnlyWhatOpenedIsKept(kept: Option<Bytes>, attempts: seq<Attempt>)
    decreases |attempts|
    ensures
      || (Seeds(kept, attempts) == kept && forall a | a in attempts :: !(a.opens && a.written))
      || exists i | 0 <= i < |attempts| ::
           && attempts[i].opens && attempts[i].written
           && Seeds(kept, attempts) == Some(attempts[i].secret)
           && forall j | i < j < |attempts| :: !(attempts[j].opens && attempts[j].written)
  {
    if attempts != [] {
      var next := Seed(kept, attempts[0]).0;
      OnlyWhatOpenedIsKept(next, attempts[1..]);
      if exists a :: a in attempts[1..] && a.opens && a.written {
        var i :| 0 <= i < |attempts[1..]| && attempts[1..][i].opens && attempts[1..][i].written
          && Seeds(next, attempts[1..]) == Some(attempts[1..][i].secret)
          && forall j | i < j < |attempts[1..]| :: !(attempts[1..][j].opens && attempts[1..][j].written);
        assert attempts[i + 1] == attempts[1..][i];
        assert forall j | i + 1 < j < |attempts| :: attempts[j] == attempts[1..][j - 1];
      } else {
        assert forall j | 0 < j < |attempts| :: attempts[j] == attempts[1..][j - 1];
      }
    }
  }
}
