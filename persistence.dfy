/**
 * The scrubber's persisted state: when it last processed scrobbles, and its
 * rewrite rules. Two stores keep them: an in-memory one, holding the two
 * states in place, and a file-backed key/value database, holding each state
 * under its own key. Loading what is missing gives the default state.
 *
 * Timestamps are instants as whole numbers.
 */
module Persistence {
  import opened Wrappers
  import opened RewriteInterface

  datatype TimestampState = TimestampState(lastProcessedTimestamp: Option<nat>)

  datatype RewriteRulesState = RewriteRulesState(rewriteRules: seq<RewriteRule>)

  /** `TimestampState::default`. */
  const DefaultTimestampState := TimestampState(None)

  /** `RewriteRulesState::default`: no rules. */
  const DefaultRulesState := RewriteRulesState([])

  /**
   * `RewriteRulesState::with_default_rules`; the default rule list comes
   * from the rewrite module and is a parameter here.
   */
  function WithDefaultRules(defaultRules: seq<RewriteRule>): (r: RewriteRulesState)
    ensures r.rewriteRules == defaultRules
  {
    RewriteRulesState(defaultRules)
  }

  // ---------------------------------------------------------------------------
  // In-memory store
  // ---------------------------------------------------------------------------

  /** `MemoryStorage`: the two states, each behind its own lock. */
  class MemoryStorage {
    var timestampState: TimestampState
    var rulesState: RewriteRulesState

    /** A fresh store holds the default states. */
    constructor ()
      ensures timestampState == DefaultTimestampState && rulesState == DefaultRulesState
    {
      timestampState := DefaultTimestampState;
      rulesState := DefaultRulesState;
    }

    /** `clear_state`: both states back to their defaults. */
    method ClearState()
      modifies this
      ensures timestampState == DefaultTimestampState && rulesState == DefaultRulesState
    {
      timestampState := DefaultTimestampState;
      rulesState := DefaultRulesState;
    }

    method LoadTimestampState() returns (state: TimestampState)
      ensures state == timestampState
    {
      state := timestampState;
    }

    /** Saving the timestamp state leaves the rules state as it was. */
    method SaveTimestampState(state: TimestampState)
      modifies this
      ensures timestampState == state && rulesState == old(rulesState)
    {
      timestampState := state;
    }

    method LoadRewriteRulesState() returns (state: RewriteRulesState)
      ensures state == rulesState
    {
      state := rulesState;
    }

    /** Saving the rules state leaves the timestamp state as it was. */
    method SaveRewriteRulesState(state: RewriteRulesState)
      modifies this
      ensures rulesState == state && timestampState == old(timestampState)
    {
      rulesState := state;
    }
  }

  // ---------------------------------------------------------------------------
  // File-backed store
  // ---------------------------------------------------------------------------

  const TimestampKey := "timestamp_state"
  const RulesKey := "rewrite_rules_state"

  /** A value in the database, as the type it was stored with. */
  datatype Stored = StoredTimestamp(timestamp: TimestampState) | StoredRules(rules: RewriteRulesState)

  /** What loading the timestamp state gives: the stored one, or the default when absent or of another type. */
  function LoadedTimestamp(db: map<string, Stored>): TimestampState {
    if TimestampKey in db && db[TimestampKey].StoredTimestamp? then db[TimestampKey].timestamp
    else DefaultTimestampState
  }

  /** What loading the rules state gives: the stored one, or the default when absent or of another type. */
  function LoadedRules(db: map<string, Stored>): RewriteRulesState {
    if RulesKey in db && db[RulesKey].StoredRules? then db[RulesKey].rules
    else DefaultRulesState
  }

  /** `FileStorage`: a key/value database kept in a JSON file. */
  class FileStorage {
    var db: map<string, Stored>

    /**
     * `FileStorage::new`: the database read from the file, or an empty one
     * when the file cannot be read (`contents` is `None`).
     */
    constructor (contents: Option<map<string, Stored>>)
      ensures db == contents.UnwrapOr(map[])
    {
      db := contents.UnwrapOr(map[]);
    }

    /** `clear_state`: both keys removed, whether or not they were there; it always succeeds. */
    method ClearState()
      modifies this
      ensures db == old(db) - {TimestampKey, RulesKey}
    {
      db := db - {TimestampKey};
      db := db - {RulesKey};
    }

    method LoadTimestampState() returns (state: TimestampState)
      ensures state == LoadedTimestamp(db)
    {
      if TimestampKey in db && db[TimestampKey].StoredTimestamp? {
        state := db[TimestampKey].timestamp;
      } else {
        state := DefaultTimestampState;
      }
    }

    method SaveTimestampState(state: TimestampState)
      modifies this
      ensures db == old(db)[TimestampKey := StoredTimestamp(state)]
    {
      db := db[TimestampKey := StoredTimestamp(state)];
    }

    method LoadRewriteRulesState() returns (state: RewriteRulesState)
      ensures state == LoadedRules(db)
    {
      if RulesKey in db && db[RulesKey].StoredRules? {
        state := db[RulesKey].rules;
      } else {
        state := DefaultRulesState;
      }
    }

    method SaveRewriteRulesState(state: RewriteRulesState)
      modifies this
      ensures db == old(db)[RulesKey := StoredRules(state)]
    {
      db := db[RulesKey := StoredRules(state)];
    }
  }

  /**
   * In the file-backed store, loading after a save gives the saved state,
   * and saving one state leaves what loads for the other unchanged.
   */
  lemma FileLoadAfterSave(db: map<string, Stored>, timestamp: TimestampState, rules: RewriteRulesState)
    ensures LoadedTimestamp(db[TimestampKey := StoredTimestamp(timestamp)]) == timestamp
    ensures LoadedRules(db[TimestampKey := StoredTimestamp(timestamp)]) == LoadedRules(db)
    ensures LoadedRules(db[RulesKey := StoredRules(rules)]) == rules
    ensures LoadedTimestamp(db[RulesKey := StoredRules(rules)]) == LoadedTimestamp(db)
  {
    assert TimestampKey != RulesKey by {
      assert TimestampKey[0] != RulesKey[0];
    }
  }

  /** A store created without a readable file, or cleared, loads the default states. */
  lemma FileDefaults(db: map<string, Stored>)
    ensures LoadedTimestamp(map[]) == DefaultTimestampState && LoadedRules(map[]) == DefaultRulesState
    ensures LoadedTimestamp(db - {TimestampKey, RulesKey}) == DefaultTimestampState
    ensures LoadedRules(db - {TimestampKey, RulesKey}) == DefaultRulesState
  {
  }
}
