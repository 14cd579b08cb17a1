/** The language of statuses: (AuthRetrying Running)* AuthRetrying? Unauthenticated* */
module StatusLanguage {
  import opened RetryMachine

  /** The statuses alternate AuthRetrying and Running up to `cut` and are Unauthenticated from there on. */
  predicate CutAt(log: seq<Status>, cut: nat)
  {
    && cut <= |log|
    && (forall i :: 0 <= i < cut ==> log[i] == if i % 2 == 0 then AuthRetrying else Running)
    && (forall i :: cut <= i < |log| ==> log[i].Unauthenticated?)
  }

  ghost predicate InLanguage(log: seq<Status>)
  {
    exists cut :: CutAt(log, cut)
  }

  /** The last status says whether the window is open. */
  predicate Tells(log: seq<Status>, open: bool)
  {
    open <==> log != [] && log[|log| - 1] == AuthRetrying
  }
}
