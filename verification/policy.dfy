/** The configured action for primary-key updates, and how a setting string selects it. */
module PkPolicy {
  import Text

  datatype PkHandling = PkAbend | PkUpdate | PkDeleteInsert

  /**
   * `setPkUpdateHandling`: the actions are tried in the order ABEND, UPDATE,
   * DELETE_INSERT with the handling's own comparison `compareAction`; a string no
   * action accepts falls back to ABEND.
   */
  function SetPkUpdateHandling(compareAction: (PkHandling, string) -> bool, handling: string): (p: PkHandling)
    ensures p == PkUpdate <==> !compareAction(PkAbend, handling) && compareAction(PkUpdate, handling)
    ensures p == PkDeleteInsert <==>
      !compareAction(PkAbend, handling) && !compareAction(PkUpdate, handling) && compareAction(PkDeleteInsert, handling)
    ensures (forall h: PkHandling :: !compareAction(h, handling)) ==> p == PkAbend
  {
    if compareAction(PkAbend, handling) then PkAbend
    else if compareAction(PkUpdate, handling) then PkUpdate
    else if compareAction(PkDeleteInsert, handling) then PkDeleteInsert
    else PkAbend
  }

  /** The setting names the setter documents for each action. */
  function ActionName(h: PkHandling): string {
    match h
    case PkAbend => "abend"
    case PkUpdate => "update"
    case PkDeleteInsert => "delete-insert"
  }

  /** A comparison of a setting with an action's name that ignores letter case. */
  predicate MatchesActionName(h: PkHandling, handling: string) {
    Text.EqualsIgnoreCase(ActionName(h), handling)
  }

  /** Each action's own name selects that action, whatever its letter case. */
  lemma ActionNameRoundTrip(h: PkHandling, handling: string)
    requires Text.EqualsIgnoreCase(ActionName(h), handling)
    ensures SetPkUpdateHandling(MatchesActionName, handling) == h
  {
    assert !Text.EqualsIgnoreCase("abend", "update");
    assert !Text.EqualsIgnoreCase("update", "abend");
    assert Text.ToLowerAscii('a') != Text.ToLowerAscii('d');
    assert Text.ToLowerAscii('u') != Text.ToLowerAscii('d');
  }

  /**
   * Under the name comparison, every setting selects UPDATE when it is "update",
   * DELETE_INSERT when it is "delete-insert" (letter case ignored), and ABEND otherwise.
   */
  lemma SettingSelectsNamedAction(handling: string)
    ensures SetPkUpdateHandling(MatchesActionName, handling) ==
      if Text.EqualsIgnoreCase("update", handling) then PkUpdate
      else if Text.EqualsIgnoreCase("delete-insert", handling) then PkDeleteInsert
      else PkAbend
  {
    if Text.EqualsIgnoreCase("update", handling) {
      ActionNameRoundTrip(PkUpdate, handling);
    } else if Text.EqualsIgnoreCase("delete-insert", handling) {
      ActionNameRoundTrip(PkDeleteInsert, handling);
    }
  }

  /** Illustrations: near misses fall back to ABEND; a differently cased name still selects its action. */
  lemma SettingExamples()
    ensures SetPkUpdateHandling(MatchesActionName, "delete_insert") == PkAbend
    ensures SetPkUpdateHandling(MatchesActionName, "") == PkAbend
    ensures SetPkUpdateHandling(MatchesActionName, "updates") == PkAbend
    ensures SetPkUpdateHandling(MatchesActionName, "Delete-Insert") == PkDeleteInsert
  {
    assert !Text.EqualsIgnoreCase("delete-insert", "delete_insert") by {
      assert Text.ToLowerAscii("delete-insert"[6]) != Text.ToLowerAscii("delete_insert"[6]);
    }
    ActionNameRoundTrip(PkDeleteInsert, "Delete-Insert");
  }
}
