/** The two ledgers of the matching engine, SWIPES (every like/pass ever recorded) and
    MATCHES (mutual likes), as values: the queries the engine runs against them and the
    invariants it keeps, with the lemmas that show each write keeps them. */
module Ledger {
  import opened Common
  import opened Rows

  // ----- Queries on SWIPES -----

  /** `SWIPES WHERE usuario_id = u AND pet_id = p`: the user has already judged the pet. */
  predicate HasUserSwipe(swipes: seq<Swipe>, u: int, p: int)
  {
    exists k :: 0 <= k < |swipes| && swipes[k].usuarioId == Some(u) && swipes[k].petId == p
  }

  /** `SWIPES WHERE instituicao_id = i AND pet_id = p`: the institution has already judged the pet. */
  predicate HasInstitutionSwipe(swipes: seq<Swipe>, i: int, p: int)
  {
    exists k :: 0 <= k < |swipes| && swipes[k].instituicaoId == Some(i) && swipes[k].petId == p
  }

  /** A like by user `u` on pet `p`. */
  predicate HasUserLike(swipes: seq<Swipe>, u: int, p: int)
  {
    exists k :: 0 <= k < |swipes| && swipes[k].usuarioId == Some(u) && swipes[k].petId == p && swipes[k].tipo == Like
  }

  /** A like by institution `i` on pet `p`. */
  predicate HasInstitutionLike(swipes: seq<Swipe>, i: int, p: int)
  {
    exists k :: 0 <= k < |swipes| && swipes[k].instituicaoId == Some(i) && swipes[k].petId == p && swipes[k].tipo == Like
  }

  // ----- Queries on MATCHES -----

  /** Some match row, whatever its status, pairs user `u` with pet `p`. */
  predicate HasMatch(matches: seq<MatchRow>, u: int, p: int)
  {
    exists k :: 0 <= k < |matches| && matches[k].usuarioId == u && matches[k].petId == p
  }

  /** Some match row with status `"ativo"` pairs user `u` with pet `p`. */
  predicate HasActiveMatch(matches: seq<MatchRow>, u: int, p: int)
  {
    exists k :: 0 <= k < |matches| && matches[k].usuarioId == u && matches[k].petId == p && matches[k].status == Ativo
  }

  // ----- Ledger invariants -----

  /** Every swipe row names exactly one acting party. */
  ghost predicate EachSwipeNamesOneParty(swipes: seq<Swipe>)
  {
    forall k :: 0 <= k < |swipes| ==> (swipes[k].usuarioId.Some? <==> swipes[k].instituicaoId.None?)
  }

  /** At most one user swipe per (user, pet). */
  ghost predicate UserSwipesUnique(swipes: seq<Swipe>)
  {
    forall j, k :: 0 <= j < k < |swipes| && swipes[j].usuarioId.Some? && swipes[j].usuarioId == swipes[k].usuarioId
      ==> swipes[j].petId != swipes[k].petId
  }

  /** At most one institution swipe per (institution, pet), whatever user it was about. */
  ghost predicate InstitutionSwipesUnique(swipes: seq<Swipe>)
  {
    forall j, k :: 0 <= j < k < |swipes| && swipes[j].instituicaoId.Some? && swipes[j].instituicaoId == swipes[k].instituicaoId
      ==> swipes[j].petId != swipes[k].petId
  }

  /** Every match is backed by a like of its user and a like of its institution on its pet. */
  ghost predicate MatchesBacked(matches: seq<MatchRow>, swipes: seq<Swipe>)
  {
    forall k :: 0 <= k < |matches| ==>
      HasUserLike(swipes, matches[k].usuarioId, matches[k].petId) &&
      HasInstitutionLike(swipes, matches[k].instituicaoId, matches[k].petId)
  }

  /** The store's unique constraint on MATCHES (usuario_id, pet_id). */
  ghost predicate MatchPairsUnique(matches: seq<MatchRow>)
  {
    forall j, k :: 0 <= j < k < |matches| ==>
      matches[j].usuarioId != matches[k].usuarioId || matches[j].petId != matches[k].petId
  }

  /** Match ids are distinct and below the next serial value. */
  ghost predicate MatchIdsFresh(matches: seq<MatchRow>, next: int)
  {
    (forall k :: 0 <= k < |matches| ==> 0 < matches[k].id < next) &&
    (forall j, k :: 0 <= j < k < |matches| ==> matches[j].id != matches[k].id)
  }

  /** Each match names the institution that currently owns its pet (while the pet exists). */
  ghost predicate MatchOwnersCurrent(matches: seq<MatchRow>, pets: map<int, Pet>)
  {
    forall k :: 0 <= k < |matches| && matches[k].petId in pets ==>
      pets[matches[k].petId].instituicaoId == matches[k].instituicaoId
  }

  /** All the ledger invariants the store keeps; `nextMatchId` and `nextPetId` are the next
      serial values of MATCHES and PETS. */
  ghost predicate LedgerInvariant(swipes: seq<Swipe>, matches: seq<MatchRow>, nextMatchId: int, nextPetId: int)
  {
    && EachSwipeNamesOneParty(swipes)
    && UserSwipesUnique(swipes)
    && InstitutionSwipesUnique(swipes)
    && MatchesBacked(matches, swipes)
    && MatchPairsUnique(matches)
    && 0 < nextMatchId
    && MatchIdsFresh(matches, nextMatchId)
    && (forall k :: 0 <= k < |matches| ==> matches[k].petId < nextPetId)
  }

  // ----- What appending a swipe does -----

  /** After a swipe row is appended, its party has judged its pet. */
  lemma {:induction false} AppendedSwipeIsRecorded(swipes: seq<Swipe>, s: Swipe)
    ensures s.usuarioId.Some? ==> HasUserSwipe(swipes + [s], s.usuarioId.value, s.petId)
    ensures s.instituicaoId.Some? ==> HasInstitutionSwipe(swipes + [s], s.instituicaoId.value, s.petId)
    ensures s.usuarioId.Some? && s.tipo == Like ==> HasUserLike(swipes + [s], s.usuarioId.value, s.petId)
    ensures s.instituicaoId.Some? && s.tipo == Like ==> HasInstitutionLike(swipes + [s], s.instituicaoId.value, s.petId)
  {
    var k := |swipes|;
    assert (swipes + [s])[k] == s;
  }

  /** Appending never forgets a like, and a like (or a user's swipe) by a party the new row
      does not name is already in the old ledger. */
  lemma {:induction false} AppendKeepsLikes(swipes: seq<Swipe>, s: Swipe, u: int, i: int, p: int)
    ensures HasUserLike(swipes, u, p) ==> HasUserLike(swipes + [s], u, p)
    ensures HasInstitutionLike(swipes, i, p) ==> HasInstitutionLike(swipes + [s], i, p)
    ensures s.usuarioId.None? ==> (HasUserLike(swipes + [s], u, p) <==> HasUserLike(swipes, u, p))
    ensures s.instituicaoId.None? ==> (HasInstitutionLike(swipes + [s], i, p) <==> HasInstitutionLike(swipes, i, p))
    ensures s.usuarioId.None? ==> (HasUserSwipe(swipes + [s], u, p) <==> HasUserSwipe(swipes, u, p))
  {
    var t := swipes + [s];
    if HasUserSwipe(swipes, u, p) {
      var k :| 0 <= k < |swipes| && swipes[k].usuarioId == Some(u) && swipes[k].petId == p;
      assert t[k] == swipes[k];
    }
    if s.usuarioId.None? && HasUserSwipe(t, u, p) {
      var k :| 0 <= k < |t| && t[k].usuarioId == Some(u) && t[k].petId == p;
      assert k < |swipes| && t[k] == swipes[k];
    }
    if HasUserLike(swipes, u, p) {
      var k :| 0 <= k < |swipes| && swipes[k].usuarioId == Some(u) && swipes[k].petId == p && swipes[k].tipo == Like;
      assert t[k] == swipes[k];
    }
    if HasInstitutionLike(swipes, i, p) {
      var k :| 0 <= k < |swipes| && swipes[k].instituicaoId == Some(i) && swipes[k].petId == p && swipes[k].tipo == Like;
      assert t[k] == swipes[k];
    }
    if s.usuarioId.None? && HasUserLike(t, u, p) {
      var k :| 0 <= k < |t| && t[k].usuarioId == Some(u) && t[k].petId == p && t[k].tipo == Like;
      assert k < |swipes| && t[k] == swipes[k];
    }
    if s.instituicaoId.None? && HasInstitutionLike(t, i, p) {
      var k :| 0 <= k < |t| && t[k].instituicaoId == Some(i) && t[k].petId == p && t[k].tipo == Like;
      assert k < |swipes| && t[k] == swipes[k];
    }
  }

  /** A user swipe on a pet the user has not judged keeps the ledger's invariants. */
  lemma {:induction false} AppendUserSwipeKeepsInvariants(
    swipes: seq<Swipe>, matches: seq<MatchRow>, s: Swipe, nextMatchId: int, nextPetId: int)
    requires LedgerInvariant(swipes, matches, nextMatchId, nextPetId)
    requires s.usuarioId.Some? && s.instituicaoId.None?
    requires !HasUserSwipe(swipes, s.usuarioId.value, s.petId)
    ensures LedgerInvariant(swipes + [s], matches, nextMatchId, nextPetId)
  {
    var t := swipes + [s];
    forall j, k | 0 <= j < k < |t| && t[j].usuarioId.Some? && t[j].usuarioId == t[k].usuarioId
      ensures t[j].petId != t[k].petId
    {
      if k == |swipes| {
        assert t[j] == swipes[j];
      }
    }
    forall k | 0 <= k < |matches|
      ensures HasUserLike(t, matches[k].usuarioId, matches[k].petId)
      ensures HasInstitutionLike(t, matches[k].instituicaoId, matches[k].petId)
    {
      AppendKeepsLikes(swipes, s, matches[k].usuarioId, matches[k].instituicaoId, matches[k].petId);
    }
  }

  /** An institution swipe on a pet the institution has not judged keeps the ledger's invariants. */
  lemma {:induction false} AppendInstitutionSwipeKeepsInvariants(
    swipes: seq<Swipe>, matches: seq<MatchRow>, s: Swipe, nextMatchId: int, nextPetId: int)
    requires LedgerInvariant(swipes, matches, nextMatchId, nextPetId)
    requires s.instituicaoId.Some? && s.usuarioId.None?
    requires !HasInstitutionSwipe(swipes, s.instituicaoId.value, s.petId)
    ensures LedgerInvariant(swipes + [s], matches, nextMatchId, nextPetId)
  {
    var t := swipes + [s];
    forall j, k | 0 <= j < k < |t| && t[j].instituicaoId.Some? && t[j].instituicaoId == t[k].instituicaoId
      ensures t[j].petId != t[k].petId
    {
      if k == |swipes| {
        assert t[j] == swipes[j];
      }
    }
    forall k | 0 <= k < |matches|
      ensures HasUserLike(t, matches[k].usuarioId, matches[k].petId)
      ensures HasInstitutionLike(t, matches[k].instituicaoId, matches[k].petId)
    {
      AppendKeepsLikes(swipes, s, matches[k].usuarioId, matches[k].instituicaoId, matches[k].petId);
    }
  }

  // ----- Why the MATCHES unique constraint never fires -----

  /** A user who has not judged a pet has no match on it: every match is backed by a like
      of its user. So the match a user swipe creates never collides with an existing one. */
  lemma {:induction false} UnjudgedPetHasNoMatch(matches: seq<MatchRow>, swipes: seq<Swipe>, u: int, p: int)
    requires MatchesBacked(matches, swipes)
    requires !HasUserSwipe(swipes, u, p)
    ensures !HasMatch(matches, u, p)
  {
    forall k | 0 <= k < |matches| && matches[k].usuarioId == u
      ensures matches[k].petId != p
    {
      assert HasUserLike(swipes, matches[k].usuarioId, matches[k].petId);
    }
  }

  /** While every match names its pet's current owner, a pet whose owner has not judged it
      has no match with any user: a match would be backed by a like of that owner. */
  lemma {:induction false} OwnerUnjudgedPetHasNoMatch(
    matches: seq<MatchRow>, swipes: seq<Swipe>, pets: map<int, Pet>, i: int, p: int, u: int)
    requires MatchesBacked(matches, swipes) && MatchOwnersCurrent(matches, pets)
    requires p in pets && pets[p].instituicaoId == i
    requires !HasInstitutionSwipe(swipes, i, p)
    ensures !HasMatch(matches, u, p)
  {
    forall k | 0 <= k < |matches|
      ensures matches[k].petId != p
    {
      assert HasInstitutionLike(swipes, matches[k].instituicaoId, matches[k].petId);
    }
  }

  /** Without the current-owner invariant the constraint CAN fire: after a pet changes
      owner, its new owner has not judged it, yet a match made under the old owner exists. */
  lemma OwnerChangeAllowsConflict()
    ensures exists matches: seq<MatchRow>, swipes: seq<Swipe>, pets: map<int, Pet> ::
      MatchesBacked(matches, swipes) && 2 in pets && pets[2].instituicaoId == 20 &&
      !HasInstitutionSwipe(swipes, 20, 2) && HasMatch(matches, 1, 2)
  {
    var swipes := [Swipe(1, Some(1), None, 2, Like, 0), Swipe(2, None, Some(10), 2, Like, 0)];
    var matches := [MatchRow(1, 1, 10, 2, Ativo, 0, 0)];
    var pet := Pet("Rex", "cachorro", None, "N", None, None, None, false, false, None, None, 20, "disponível", true, 0);
    var pets := map[2 := pet];
    assert swipes[0].usuarioId == Some(1) && swipes[0].petId == 2 && swipes[0].tipo == Like;
    assert swipes[1].instituicaoId == Some(10) && swipes[1].petId == 2 && swipes[1].tipo == Like;
    assert HasUserLike(swipes, 1, 2) && HasInstitutionLike(swipes, 10, 2);
    assert MatchesBacked(matches, swipes);
    assert matches[0].usuarioId == 1 && matches[0].petId == 2;
    assert HasMatch(matches, 1, 2);
    assert MatchesBacked(matches, swipes) && 2 in pets && pets[2].instituicaoId == 20 &&
      !HasInstitutionSwipe(swipes, 20, 2) && HasMatch(matches, 1, 2);
  }

  // ----- What adding a match does -----

  /** Appending a match on a fresh (user, pet) pair, backed by both likes, with a fresh id,
      keeps the MATCHES invariants. */
  lemma {:induction false} AppendMatchKeepsInvariants(
    matches: seq<MatchRow>, swipes: seq<Swipe>, m: MatchRow, next: int, nextPetId: int)
    requires LedgerInvariant(swipes, matches, next, nextPetId)
    requires !HasMatch(matches, m.usuarioId, m.petId)
    requires HasUserLike(swipes, m.usuarioId, m.petId) && HasInstitutionLike(swipes, m.instituicaoId, m.petId)
    requires m.id == next && m.petId < nextPetId
    ensures LedgerInvariant(swipes, matches + [m], next + 1, nextPetId)
  {
    var t := matches + [m];
    forall j, k | 0 <= j < k < |t|
      ensures t[j].usuarioId != t[k].usuarioId || t[j].petId != t[k].petId
    {
      if k == |matches| {
        assert t[j] == matches[j];
      }
    }
  }

  /** A match kept the same parties if `after` differs from `before` at most in the status
      and the interaction time of its rows. */
  ghost predicate SameParties(before: seq<MatchRow>, after: seq<MatchRow>)
  {
    |before| == |after| &&
    forall k :: 0 <= k < |before| ==>
      after[k].id == before[k].id && after[k].usuarioId == before[k].usuarioId &&
      after[k].instituicaoId == before[k].instituicaoId && after[k].petId == before[k].petId
  }

  /** Changing only statuses and interaction times keeps every MATCHES invariant. */
  lemma {:induction false} SamePartiesKeepInvariants(
    before: seq<MatchRow>, after: seq<MatchRow>, swipes: seq<Swipe>, pets: map<int, Pet>, next: int, nextPetId: int)
    requires SameParties(before, after)
    ensures LedgerInvariant(swipes, before, next, nextPetId) ==> LedgerInvariant(swipes, after, next, nextPetId)
    ensures MatchOwnersCurrent(before, pets) ==> MatchOwnersCurrent(after, pets)
  {
  }

  /** A new match naming its pet's current owner keeps the current-owner invariant. */
  lemma {:induction false} AppendMatchKeepsOwners(matches: seq<MatchRow>, pets: map<int, Pet>, m: MatchRow)
    requires MatchOwnersCurrent(matches, pets)
    requires m.petId in pets ==> pets[m.petId].instituicaoId == m.instituicaoId
    ensures MatchOwnersCurrent(matches + [m], pets)
  {
    var t := matches + [m];
    forall k | 0 <= k < |t| && t[k].petId in pets
      ensures pets[t[k].petId].instituicaoId == t[k].instituicaoId
    {
      if k < |matches| {
        assert t[k] == matches[k];
      }
    }
  }
}
