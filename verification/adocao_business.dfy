/** Adoption requests: creation with the owning institution copied from the pet, and
    status changes in place. */
module AdocaoBusiness {
  import opened Common
  import opened Rows
  import opened Store
  import MatchBusiness

  /** `criarAdocao`: fails, writing nothing, when the pet is missing; otherwise stores a
      request for the user and the pet under a fresh id, owned by the pet's institution,
      with status "pendente" unless a truthy status is given. */
  method CriarAdocao(db: Db, petId: int, usuarioId: int, status: Option<string>, now: Timestamp)
    returns (r: Result<int, Error>)
    requires db.Valid()
    modifies db`adocoes, db`nextAdocaoId
    ensures db.Valid()
    ensures petId !in db.pets ==>
      r == Failure(PetNaoEncontrado) && db.adocoes == old(db.adocoes) && db.nextAdocaoId == old(db.nextAdocaoId)
    ensures petId in db.pets ==>
      && r == Success(old(db.nextAdocaoId))
      && old(db.nextAdocaoId) !in old(db.adocoes)
      && db.adocoes == old(db.adocoes)[old(db.nextAdocaoId) :=
           Adocao(petId, usuarioId, db.pets[petId].instituicaoId, now, StringOr(status, "pendente"))]
      && db.nextAdocaoId == old(db.nextAdocaoId) + 1
  {
    if petId !in db.pets {
      return Failure(PetNaoEncontrado);
    }
    var pet := db.pets[petId];
    var id := db.nextAdocaoId;
    db.adocoes := db.adocoes[id := Adocao(petId, usuarioId, pet.instituicaoId, now, StringOr(status, "pendente"))];
    db.nextAdocaoId := id + 1;
    return Success(id);
  }

  /** `atualizarStatus`: sets the status of the request with that id, any status at all,
      and answers the number of rows changed. */
  method AtualizarStatus(db: Db, id: int, status: string) returns (count: nat)
    requires db.Valid()
    modifies db`adocoes
    ensures db.Valid()
    ensures count == (if id in old(db.adocoes) then 1 else 0)
    ensures id in old(db.adocoes) ==> db.adocoes == old(db.adocoes)[id := old(db.adocoes)[id].(status := status)]
    ensures id !in old(db.adocoes) ==> db.adocoes == old(db.adocoes)
  {
    if id in db.adocoes {
      db.adocoes := db.adocoes[id := db.adocoes[id].(status := status)];
      count := 1;
    } else {
      count := 0;
    }
  }

  /** The request counts towards the user's approved adoptions. */
  predicate Aprovada(a: Adocao, u: int)
  {
    a.usuarioId == u && a.status == "aprovada"
  }

  /** Removing one element from a finite set lowers its size by one exactly when the
      element was there. */
  lemma TamanhoSem(a: set<int>, x: int)
    ensures |a| == |a - {x}| + (if x in a then 1 else 0)
  {
    if x in a {
      assert a == (a - {x}) + {x};
    } else {
      assert a == a - {x};
    }
  }

  /** Writing the row `id` leaves every other request's approval as it was. */
  lemma AprovadasForaDe(adocoes: map<int, Adocao>, id: int, row: Adocao, u: int)
    ensures MatchBusiness.AdocoesAprovadas(adocoes, u) - {id} == MatchBusiness.AdocoesAprovadas(adocoes[id := row], u) - {id}
  {
  }

  /** Writing one request row changes a user's count of approved adoptions by what the
      old row and the new row contribute: the old one leaves the count, the new one joins. */
  lemma TotalAposEscrita(adocoes: map<int, Adocao>, id: int, row: Adocao, u: int)
    ensures MatchBusiness.TotalAdocoes(adocoes[id := row], u) + (if id in adocoes && Aprovada(adocoes[id], u) then 1 else 0)
         == MatchBusiness.TotalAdocoes(adocoes, u) + (if Aprovada(row, u) then 1 else 0)
  {
    var a := MatchBusiness.AdocoesAprovadas(adocoes, u);
    var b := MatchBusiness.AdocoesAprovadas(adocoes[id := row], u);
    AprovadasForaDe(adocoes, id, row, u);
    TamanhoSem(a, id);
    TamanhoSem(b, id);
    assert id in a <==> id in adocoes && Aprovada(adocoes[id], u);
    assert id in b <==> Aprovada(row, u);
  }

  /** Approving a request that was not approved adds one to its user's approved adoptions,
      the number an institution's discovery feed shows. */
  method AprovarAdocao(db: Db, id: int) returns (count: nat)
    requires db.Valid()
    requires id in db.adocoes && db.adocoes[id].status != "aprovada"
    modifies db`adocoes
    ensures db.Valid()
    ensures count == 1
    ensures MatchBusiness.TotalAdocoes(db.adocoes, old(db.adocoes)[id].usuarioId)
         == MatchBusiness.TotalAdocoes(old(db.adocoes), old(db.adocoes)[id].usuarioId) + 1
  {
    var u := db.adocoes[id].usuarioId;
    TotalAposEscrita(db.adocoes, id, db.adocoes[id].(status := "aprovada"), u);
    count := AtualizarStatus(db, id, "aprovada");
  }
}
