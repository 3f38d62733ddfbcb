/** Pets: listing, creation with the availability defaults, lookup, field-wise update
    (including a move to another institution) and removal. */
module PetBusiness {
  import opened Common
  import opened Seqs
  import opened Rows
  import opened Ledger
  import opened Store
  import MatchBusiness

  /** A pet row as listed and looked up: the English field names of the pet endpoints. */
  function Resposta(id: int, p: Pet): PetResponse
  {
    PetResponse(id, p.nome, p.especie, p.instituicaoId, p.vacinado, p.castrado, p.cor, Some(p.dataCadastro), p.ativo)
  }

  /** `listarPets`: every pet, once, in the order the store returned them. */
  function ListarPets(pets: map<int, Pet>, order: seq<int>): (r: seq<PetResponse>)
    requires Enumerates(order, pets.Keys)
    ensures |r| == |pets|
    ensures forall k :: 0 <= k < |r| ==> r[k].id in pets && r[k] == Resposta(r[k].id, pets[r[k].id])
    ensures forall id :: id in pets ==> exists k :: 0 <= k < |r| && r[k].id == id
  {
    DistinctEnumerationHasSize(order, pets.Keys);
    assert forall k :: 0 <= k < |order| ==> order[k] in order;
    var r := seq(|order|, k requires 0 <= k < |order| => Resposta(order[k], pets[order[k]]));
    assert forall id :: id in pets ==> exists k :: 0 <= k < |r| && r[k].id == id by {
      forall id | id in pets ensures exists k :: 0 <= k < |r| && r[k].id == id {
        var k :| 0 <= k < |order| && order[k] == id;
        assert r[k].id == id;
      }
    }
    r
  }

  /** The values a creation supplies; `None` is an absent field. */
  datatype NovoPet = NovoPet(
    name: string,
    petType: string,
    ownerId: int,
    vacinado: Option<bool>,
    castrado: Option<bool>,
    cor: Option<string>,
    ativo: Option<bool>)

  /** The row a creation stores: sex "N", vaccinated and neutered false and active true
      unless given, status "disponível", the other columns NULL. */
  function LinhaNova(d: NovoPet, now: Timestamp): (row: Pet)
    ensures row.nome == d.name && row.especie == d.petType && row.instituicaoId == d.ownerId
    ensures row.sexo == "N" && row.statusAdocao == "disponível"
    ensures row.ativo <==> d.ativo != Some(false)
    ensures MatchBusiness.PetDisponivel(row) <==> d.ativo != Some(false)
    ensures row.raca.None? && row.idadeAproximada.None? && row.porte.None?
    ensures row.descricaoSaude.None? && row.historia.None?
    ensures row.vacinado <==> d.vacinado == Some(true)
    ensures row.castrado <==> d.castrado == Some(true)
    ensures row.cor == d.cor && row.dataCadastro == now
  {
    Pet(d.name, d.petType, None, "N", None, None, d.cor, Coalesce(d.vacinado, false), Coalesce(d.castrado, false),
        None, None, d.ownerId, "disponível", Coalesce(d.ativo, true), now)
  }

  /** `criarPet`: stores the new row under a fresh id and answers with the values it was
      given, the defaults applied and no registration date. No swipe decision or match
      names the new pet, so the owner invariant holds on. */
  method CriarPet(db: Db, dados: NovoPet, now: Timestamp) returns (r: PetResponse)
    requires db.Valid()
    modifies db`pets, db`nextPetId
    ensures db.Valid()
    ensures old(db.nextPetId) !in old(db.pets)
    ensures db.pets == old(db.pets)[old(db.nextPetId) := LinhaNova(dados, now)]
    ensures db.nextPetId == old(db.nextPetId) + 1
    ensures r == PetResponse(old(db.nextPetId), dados.name, dados.petType, dados.ownerId,
                             Coalesce(dados.vacinado, false), Coalesce(dados.castrado, false), dados.cor, None,
                             Coalesce(dados.ativo, true))
    ensures forall u :: !HasMatch(db.matches, u, old(db.nextPetId))
    ensures old(db.OwnersCurrent()) ==> db.OwnersCurrent()
  {
    var id := db.nextPetId;
    NovoPetSemMatches(db.matches, db.pets, id, LinhaNova(dados, now), db.nextMatchId);
    db.pets := db.pets[id := LinhaNova(dados, now)];
    db.nextPetId := id + 1;
    r := PetResponse(id, dados.name, dados.petType, dados.ownerId,
                     Coalesce(dados.vacinado, false), Coalesce(dados.castrado, false), None, None,
                     Coalesce(dados.ativo, true));
    if dados.cor.Some? {
      r := r.(cor := dados.cor);
    }
  }

  /** A pet stored under an id no match names leaves the owner invariant intact, and a
      larger pet bound still bounds every match. */
  lemma NovoPetSemMatches(matches: seq<MatchRow>, pets: map<int, Pet>, id: int, row: Pet, nextMatchId: int)
    requires forall k :: 0 <= k < |matches| ==> matches[k].petId < id
    ensures forall u :: !HasMatch(matches, u, id)
    ensures MatchOwnersCurrent(matches, pets) ==> MatchOwnersCurrent(matches, pets[id := row])
    ensures forall k :: 0 <= k < |matches| ==> matches[k].petId < id + 1
  {
    forall u ensures !HasMatch(matches, u, id) {
      forall k | 0 <= k < |matches| ensures !(matches[k].usuarioId == u && matches[k].petId == id) {
        assert matches[k].petId < id;
      }
    }
  }

  /** `buscarPetPorId`: the pet, or nothing for an unknown id. */
  function BuscarPetPorId(pets: map<int, Pet>, id: int): (r: Option<PetResponse>)
    ensures r.None? <==> id !in pets
    ensures r.Some? ==> r.value.id == id && r.value == Resposta(id, pets[id])
  {
    if id in pets then Some(Resposta(id, pets[id])) else None
  }

  /** The values an update supplies; `None` is an absent field. */
  datatype DadosPet = DadosPet(name: Option<string>, petType: Option<string>, ownerId: Option<int>)

  /** The `updateData` object: `Some(v)` sets the column to `v`. */
  datatype PetPatch = PetPatch(nome: Option<string>, especie: Option<string>, instituicaoId: Option<int>)

  const PatchVazio := PetPatch(None, None, None)

  function Aplicar(p: Pet, patch: PetPatch): Pet
  {
    p.(nome := Coalesce(patch.nome, p.nome), especie := Coalesce(patch.especie, p.especie),
       instituicaoId := Coalesce(patch.instituicaoId, p.instituicaoId))
  }

  /** Whether an update carries any truthy field. */
  predicate TemCampos(d: DadosPet)
  {
    TruthyString(d.name) || TruthyString(d.petType) || TruthyInt(d.ownerId)
  }

  /** The row after the update rules: each of name, species and owner replaced only when
      the new value is truthy. */
  function Atualizado(p: Pet, d: DadosPet): Pet
  {
    p.(nome := if TruthyString(d.name) then d.name.value else p.nome,
       especie := if TruthyString(d.petType) then d.petType.value else p.especie,
       instituicaoId := if TruthyInt(d.ownerId) then d.ownerId.value else p.instituicaoId)
  }

  /** The columns an update sets. */
  function PatchDe(d: DadosPet): PetPatch
  {
    PetPatch(
      if TruthyString(d.name) then d.name else None,
      if TruthyString(d.petType) then d.petType else None,
      if TruthyInt(d.ownerId) then d.ownerId else None)
  }

  /** Applying the columns of an update gives the row the field rules describe. */
  lemma PatchDeAplicado(p: Pet, d: DadosPet)
    ensures Aplicar(p, PatchDe(d)) == Atualizado(p, d)
  {
  }

  /** An update sets no column exactly when it carries no truthy field. */
  lemma PatchVazioSemCampos(d: DadosPet)
    ensures PatchDe(d) == PatchVazio <==> !TemCampos(d)
  {
  }

  /** An update that leaves the owner in place changes nothing a match depends on. */
  lemma MesmoDonoMantemDonos(matches: seq<MatchRow>, pets: map<int, Pet>, id: int, d: DadosPet)
    requires id in pets
    ensures MatchOwnersCurrent(matches, pets) && (!TruthyInt(d.ownerId) || d.ownerId.value == pets[id].instituicaoId) ==>
      MatchOwnersCurrent(matches, pets[id := Atualizado(pets[id], d)])
  {
    var novos := pets[id := Atualizado(pets[id], d)];
    if MatchOwnersCurrent(matches, pets) && (!TruthyInt(d.ownerId) || d.ownerId.value == pets[id].instituicaoId) {
      forall k | 0 <= k < |matches| && matches[k].petId in novos
        ensures novos[matches[k].petId].instituicaoId == matches[k].instituicaoId
      {
        assert matches[k].petId in pets;
      }
    }
  }

  /** The first half of `atualizarPet`: builds `updateData` field by field. */
  method MontarPatch(d: DadosPet) returns (patch: PetPatch)
    ensures patch == PatchDe(d)
  {
    patch := PatchVazio;
    if TruthyString(d.name) { patch := patch.(nome := d.name); }
    if TruthyString(d.petType) { patch := patch.(especie := d.petType); }
    if TruthyInt(d.ownerId) { patch := patch.(instituicaoId := d.ownerId); }
  }

  /** `atualizarPet`: answers false, writing nothing, when no field is truthy, and otherwise
      whether the pet exists, which then holds the updated row. Matches keep naming their
      pet's owner unless the update moves the pet to another institution. */
  method AtualizarPet(db: Db, id: int, dados: DadosPet) returns (updated: bool)
    requires db.Valid()
    modifies db`pets
    ensures db.Valid()
    ensures updated <==> TemCampos(dados) && id in old(db.pets)
    ensures updated ==> db.pets == old(db.pets)[id := Atualizado(old(db.pets)[id], dados)]
    ensures !updated ==> db.pets == old(db.pets)
    ensures old(db.OwnersCurrent()) && (!TruthyInt(dados.ownerId) || id !in old(db.pets) ||
                                        dados.ownerId.value == old(db.pets)[id].instituicaoId) ==>
      db.OwnersCurrent()
  {
    var patch := MontarPatch(dados);
    PatchVazioSemCampos(dados);
    if patch == PatchVazio {
      return false;
    }
    if id !in db.pets {
      return false;
    }
    PatchDeAplicado(db.pets[id], dados);
    MesmoDonoMantemDonos(db.matches, db.pets, id, dados);
    db.pets := db.pets[id := Aplicar(db.pets[id], patch)];
    return true;
  }

  /** `deletarPet`: removes the pet; answers whether a row was removed. A match whose pet is
      gone names no current owner to contradict, so the owner invariant holds on. */
  method DeletarPet(db: Db, id: int) returns (deleted: bool)
    requires db.Valid()
    modifies db`pets
    ensures db.Valid()
    ensures deleted <==> id in old(db.pets)
    ensures db.pets == old(db.pets) - {id}
    ensures old(db.OwnersCurrent()) ==> db.OwnersCurrent()
  {
    deleted := id in db.pets;
    db.pets := db.pets - {id};
  }
}
