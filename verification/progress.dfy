/** Saving and restoring progress. The file system is a map from file name
    to the record written there; only a logged-in user can save. */
module Progress {
  import opened Wrappers
  import opened Grid
  import opened Catalog
  import opened Loading
  import opened Game

  /** What a save writes: the level index and the terrain grid in play. */
  datatype Record = Record(level: int, grid: Grid)

  type Store = map<string, Record>

  /** The file a user's progress goes to. */
  function ProgressFile(user: string): string
  {
    user + "_progress.dat"
  }

  datatype SaveOutcome = GuestRefused | Saved

  /** Saving while a level is in play. A guest (no user) is refused and
      nothing is written; a user's file name is mapped to the current
      level index and the terrain grid, and every other name keeps its
      record. */
  function SaveProgress(user: Option<string>, g: Game, store: Store): (r: (Store, SaveOutcome))
    requires g.Playing?
    ensures user.None? ==> r == (store, GuestRefused)
    ensures user.Some? ==> r.1 == Saved
    ensures user.Some? ==> r.0.Keys == store.Keys + {ProgressFile(user.value)}
    ensures user.Some? ==> r.0[ProgressFile(user.value)] == Record(g.level, g.board.terrain)
    ensures forall f :: f in store && (user.None? || f != ProgressFile(user.value)) ==> r.0[f] == store[f]
  {
    match user
    case None => (store, GuestRefused)
    case Some(u) => (store[ProgressFile(u) := Record(g.level, g.board.terrain)], Saved)
  }

  /** Restoring saved progress. Nothing happens for a guest or when the
      user has no file; otherwise the saved level index is reloaded from the
      table in its initial layout, and the saved grid is not read back. */
  function LoadSavedProgress(user: Option<string>, store: Store, g: Game): (r: Game)
    ensures user.None? ==> r == g
    ensures user.Some? && ProgressFile(user.value) !in store ==> r == g
    ensures user.Some? && ProgressFile(user.value) in store ==>
              var l := store[ProgressFile(user.value)].level;
              (0 <= l < LevelCount ==> r == Playing(l, LoadLevel(l)))
              && (!(0 <= l < LevelCount) ==> r == g)
  {
    match user
    case None => g
    case Some(u) =>
      if ProgressFile(u) !in store then g
      else
        var l := store[ProgressFile(u)].level;
        if 0 <= l < LevelCount then Playing(l, LoadLevel(l)) else g
  }

  /** Saving and then loading restores the level index that was saved, with
      that level back in its initial layout, whatever happened in between on
      the board; other users' files do not interfere. */
  lemma SaveLoadRoundTrip(user: string, g: Game, store: Store, later: Game)
    requires GameValid(g) && g.Playing?
    ensures var saved := SaveProgress(Some(user), g, store).0;
            LoadSavedProgress(Some(user), saved, later) == Playing(g.level, LoadLevel(g.level))
  {
  }

  /** Every record in the store names a level of the table. */
  predicate StoreInTable(store: Store)
  {
    forall f :: f in store ==> 0 <= store[f].level < LevelCount
  }

  /** Saving from a valid session keeps every record's level index inside
      the table, so a store written only by saves never holds another one. */
  lemma SaveKeepsStoreInTable(user: Option<string>, g: Game, store: Store)
    requires GameValid(g) && g.Playing? && StoreInTable(store)
    ensures StoreInTable(SaveProgress(user, g, store).0)
  {
  }

  /** On such a store, loading a user's record always reloads that level and
      keeps the session invariant: the fallback for an index outside the
      table never applies. */
  lemma LoadFromTableStore(user: Option<string>, store: Store, g: Game)
    requires GameValid(g) && StoreInTable(store)
    ensures GameValid(LoadSavedProgress(user, store, g))
    ensures user.Some? && ProgressFile(user.value) in store ==>
              var l := store[ProgressFile(user.value)].level;
              LoadSavedProgress(user, store, g) == Playing(l, LoadLevel(l))
  {
    if user.Some? && ProgressFile(user.value) in store {
      LoadLevelUnwon(store[ProgressFile(user.value)].level);
    }
  }

  /** A guest can neither save nor restore. */
  lemma GuestCannotPersist(g: Game, store: Store, later: Game)
    requires g.Playing?
    ensures SaveProgress(None, g, store).0 == store
    ensures LoadSavedProgress(None, SaveProgress(None, g, store).0, later) == later
  {
  }

  /** Distinct users get distinct file names. */
  lemma ProgressFileInjective(u: string, v: string)
    ensures ProgressFile(u) == ProgressFile(v) <==> u == v
  {
    if ProgressFile(u) == ProgressFile(v) {
      assert |u| == |v|;
      assert u == ProgressFile(u)[..|u|];
      assert v == ProgressFile(v)[..|v|];
    }
  }
}
