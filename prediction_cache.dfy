/**
 * The in-memory prediction history cache (repository/cache_repository.go): a
 * per-user list of predictions, newest first, and an LRU index by prediction
 * ID. Zero results are skipped when saving and filtered out when reading;
 * PopulateFromMap replaces the per-user lists wholesale.
 *
 * Nothing reads the LRU index, so only the calls made to its Add are recorded
 * (`indexAdds`); its capacity and eviction are not modelled.
 */
module PredictionCache {
  import opened Model

  /** The per-user lists, newest first. */
  type UserIndex = map<Uuid, seq<PredictionHistory>>

  /** The meaningful entries of a list, in their order. */
  function NonZero(xs: seq<PredictionHistory>): seq<PredictionHistory>
    decreases |xs|
  {
    if xs == [] then []
    else NonZero(xs[..|xs| - 1]) + (if Meaningful(xs[|xs| - 1]) then [xs[|xs| - 1]] else [])
  }

  /** NonZero keeps exactly the meaningful entries. */
  lemma {:induction false} NonZeroMembers(xs: seq<PredictionHistory>, p: PredictionHistory)
    ensures p in NonZero(xs) <==> p in xs && Meaningful(p)
    decreases |xs|
  {
    if xs != [] {
      var init := xs[..|xs| - 1];
      NonZeroMembers(init, p);
      assert xs == init + [xs[|xs| - 1]];
    }
  }

  /** Filtering commutes with putting an entry in front. */
  lemma {:induction false} NonZeroPrepend(p: PredictionHistory, xs: seq<PredictionHistory>)
    ensures NonZero([p] + xs) == (if Meaningful(p) then [p] else []) + NonZero(xs)
    decreases |xs|
  {
    if xs == [] {
      assert [p] + xs == [p];
      assert [p][..0] == [];
    } else {
      var init := xs[..|xs| - 1];
      assert ([p] + xs)[..|[p] + xs| - 1] == [p] + init;
      NonZeroPrepend(p, init);
    }
  }

  /** A list with no zero entries is returned as it is, so filtering twice is filtering once. */
  lemma {:induction false} NonZeroKeepsMeaningful(xs: seq<PredictionHistory>)
    requires forall i :: 0 <= i < |xs| ==> Meaningful(xs[i])
    ensures NonZero(xs) == xs
    decreases |xs|
  {
    if xs != [] {
      NonZeroKeepsMeaningful(xs[..|xs| - 1]);
    }
  }

  lemma NonZeroIdempotent(xs: seq<PredictionHistory>)
    ensures NonZero(NonZero(xs)) == NonZero(xs)
  {
    forall i | 0 <= i < |NonZero(xs)| ensures Meaningful(NonZero(xs)[i]) {
      NonZeroMembers(xs, NonZero(xs)[i]);
    }
    NonZeroKeepsMeaningful(NonZero(xs));
  }

  /** The per-user lists after SavePrediction(userId, p). */
  function Saved(index: UserIndex, userId: Uuid, p: PredictionHistory): UserIndex
  {
    if !Meaningful(p) then index
    else index[userId := [p] + (if userId in index then index[userId] else [])]
  }

  /** What GetUserPredictions answers: `found` is whether the user has a key at all. */
  function Lookup(index: UserIndex, userId: Uuid): (seq<PredictionHistory>, bool)
  {
    if userId !in index then ([], false) else (NonZero(index[userId]), true)
  }

  /** The entries listed under some user of `m`. */
  ghost predicate Listed(m: UserIndex, users: set<Uuid>, p: PredictionHistory)
  {
    exists u :: u in users && u in m && p in m[u]
  }

  class CacheRepository {
    var userCache: UserIndex
    /** The predictions handed to the LRU index's Add, in order. */
    ghost var indexAdds: seq<PredictionHistory>

    constructor ()
      ensures userCache == map[] && indexAdds == []
    {
      userCache := map[];
      indexAdds := [];
    }

    /**
     * SavePrediction: a zero result changes nothing; any other is put in front
     * of its user's list (a new list if the user had none) and added to the
     * index by ID. The returned error is always nil and is not modelled.
     */
    method SavePrediction(userId: Uuid, prediction: PredictionHistory)
      modifies this
      ensures userCache == Saved(old(userCache), userId, prediction)
      ensures indexAdds == if Meaningful(prediction) then old(indexAdds) + [prediction] else old(indexAdds)
    {
      if prediction.result.predictedPrice == 0.0 && prediction.result.predictedSales == 0.0 {
        return;
      }
      var predictions := if userId in userCache then userCache[userId] else [];
      predictions := [prediction] + predictions;
      userCache := userCache[userId := predictions];
      indexAdds := indexAdds + [prediction];
    }

    /**
     * GetUserPredictions: `found` is false exactly when the user has no key;
     * when found, the stored list without its zero entries, in order. A key
     * with an empty list is found.
     */
    method GetUserPredictions(userId: Uuid) returns (predictions: seq<PredictionHistory>, found: bool)
      ensures found <==> userId in userCache
      ensures found ==> predictions == NonZero(userCache[userId])
      ensures !found ==> predictions == []
    {
      if userId !in userCache {
        return [], false;
      }
      var stored := userCache[userId];
      var filtered := [];
      for i := 0 to |stored|
        invariant filtered == NonZero(stored[..i])
      {
        assert stored[..i + 1][..i] == stored[..i];
        if !(stored[i].result.predictedPrice == 0.0 && stored[i].result.predictedSales == 0.0) {
          filtered := filtered + [stored[i]];
        }
      }
      assert stored[..|stored|] == stored;
      return filtered, true;
    }

    /**
     * PopulateFromMap: the per-user lists become exactly `predictions`, with no
     * filtering; every listed prediction, zero or not, is added to the index by
     * ID, which is never cleared.
     */
    method PopulateFromMap(predictions: UserIndex)
      modifies this
      ensures userCache == predictions
      ensures |old(indexAdds)| <= |indexAdds| && indexAdds[..|old(indexAdds)|] == old(indexAdds)
      ensures forall p :: p in indexAdds[|old(indexAdds)|..] <==> Listed(predictions, predictions.Keys, p)
    {
      ghost var before := indexAdds;
      userCache := map[];
      var users := predictions.Keys;
      ghost var done: set<Uuid> := {};
      while users != {}
        invariant users !! done && users + done == predictions.Keys
        invariant userCache.Keys == done
        invariant forall u :: u in userCache ==> userCache[u] == predictions[u]
        invariant |before| <= |indexAdds| && indexAdds[..|before|] == before
        invariant forall p :: p in indexAdds[|before|..] <==> Listed(predictions, done, p)
        decreases users
      {
        var userId :| userId in users;
        var userPredictions := predictions[userId];
        userCache := userCache[userId := userPredictions];
        ghost var added := indexAdds[|before|..];
        for i := 0 to |userPredictions|
          invariant |before| <= |indexAdds| && indexAdds[..|before|] == before
          invariant indexAdds[|before|..] == added + userPredictions[..i]
        {
          indexAdds := indexAdds + [userPredictions[i]];
          assert indexAdds[|before|..] == added + userPredictions[..i + 1];
        }
        assert userPredictions[..|userPredictions|] == userPredictions;
        forall p
          ensures p in indexAdds[|before|..] <==> Listed(predictions, done + {userId}, p)
        {
          if p in userPredictions {
            assert Listed(predictions, done + {userId}, p);
          }
          if Listed(predictions, done + {userId}, p) && p !in userPredictions {
            assert Listed(predictions, done, p);
          }
        }
        done := done + {userId};
        users := users - {userId};
      }
    }
  }

  /** A zero result leaves every user's list as it was. */
  lemma ZeroSaveChangesNothing(index: UserIndex, userId: Uuid, p: PredictionHistory)
    requires !Meaningful(p)
    ensures Saved(index, userId, p) == index
  {
  }

  /** Saving for one user leaves every other user's list and lookup as they were. */
  lemma SaveLeavesOthers(index: UserIndex, userId: Uuid, p: PredictionHistory, other: Uuid)
    requires other != userId
    ensures (other in Saved(index, userId, p)) == (other in index)
    ensures other in index ==> Saved(index, userId, p)[other] == index[other]
    ensures Lookup(Saved(index, userId, p), other) == Lookup(index, other)
  {
  }

  /**
   * After a non-zero save the user is found, with the new prediction first,
   * followed by what the user's lookup answered before.
   */
  lemma SaveThenLookup(index: UserIndex, userId: Uuid, p: PredictionHistory)
    requires Meaningful(p)
    ensures Lookup(Saved(index, userId, p), userId) == ([p] + Lookup(index, userId).0, true)
  {
    NonZeroPrepend(p, if userId in index then index[userId] else []);
  }

  /** A user with no cache entry is a cold miss; after one save, that prediction is the whole answer. */
  lemma ColdMissThenSave(index: UserIndex, userId: Uuid, p: PredictionHistory)
    requires userId !in index && Meaningful(p)
    ensures Lookup(index, userId) == ([], false)
    ensures Lookup(Saved(index, userId, p), userId) == ([p], true)
  {
    SaveThenLookup(index, userId, p);
  }

  /** Saving r1 then r2 for one user lists r2 before r1, newest first. */
  lemma SavesNewestFirst(index: UserIndex, userId: Uuid, r1: PredictionHistory, r2: PredictionHistory)
    requires Meaningful(r1) && Meaningful(r2)
    ensures Lookup(Saved(Saved(index, userId, r1), userId, r2), userId) == ([r2, r1] + Lookup(index, userId).0, true)
  {
    SaveThenLookup(index, userId, r1);
    SaveThenLookup(Saved(index, userId, r1), userId, r2);
    assert [r2] + ([r1] + Lookup(index, userId).0) == [r2, r1] + Lookup(index, userId).0;
  }

  /** A lookup never answers a zero result, even for lists populated without filtering. */
  lemma LookupNeverZero(index: UserIndex, userId: Uuid, i: nat)
    requires i < |Lookup(index, userId).0|
    ensures Meaningful(Lookup(index, userId).0[i])
  {
    NonZeroMembers(index[userId], Lookup(index, userId).0[i]);
  }
}
