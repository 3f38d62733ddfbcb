/** Donations: ordered existence checks, then one DOACOES row read back. */
module DoacaoBusiness {
  import opened Common
  import opened Rows
  import opened Store

  /** A donation row as returned to callers. */
  function Resposta(id: int, d: Doacao): DoacaoResponse
  {
    DoacaoResponse(id, d.usuarioId, d.instituicaoId, d.tipoDoacaoId, d.quantidade, d.dataDoacao, d.statusEntrega)
  }

  /** The first reference that does not exist, checked user first, then institution, then
      donation type; nothing when all three exist. */
  function PrimeiraReferenciaAusente(
    usuarios: map<int, Usuario>, instituicoes: map<int, Instituicao>, tipos: map<int, TipoDoacao>,
    usuarioId: int, instituicaoId: int, tipoDoacaoId: int): (e: Option<Error>)
    ensures e.None? <==> usuarioId in usuarios && instituicaoId in instituicoes && tipoDoacaoId in tipos
    ensures e == Some(UsuarioNaoEncontrado) <==> usuarioId !in usuarios
    ensures e == Some(InstituicaoNaoEncontrada) <==> usuarioId in usuarios && instituicaoId !in instituicoes
    ensures e == Some(TipoDoacaoNaoEncontrado) <==>
      usuarioId in usuarios && instituicaoId in instituicoes && tipoDoacaoId !in tipos
  {
    if usuarioId !in usuarios then Some(UsuarioNaoEncontrado)
    else if instituicaoId !in instituicoes then Some(InstituicaoNaoEncontrada)
    else if tipoDoacaoId !in tipos then Some(TipoDoacaoNaoEncontrado)
    else None
  }

  /** `registrarDoacao`: fails, writing nothing, with the first missing reference; otherwise
      stores one row under a fresh id with the quantity unchanged and status "pendente"
      unless a truthy status is given, reads it back and returns it. The positive quantity
      is the caller's validation. */
  method RegistrarDoacao(
    db: Db, usuarioId: int, instituicaoId: int, tipoDoacaoId: int, quantidade: Decimal,
    statusEntrega: Option<string>, now: Timestamp)
    returns (r: Result<DoacaoResponse, Error>)
    requires db.Valid()
    requires quantidade > 0.0
    modifies db`doacoes, db`nextDoacaoId
    ensures db.Valid()
    ensures r.Failure? <==>
      PrimeiraReferenciaAusente(db.usuarios, db.instituicoes, db.tiposDoacao, usuarioId, instituicaoId, tipoDoacaoId).Some?
    ensures r.Failure? ==>
      && Some(r.error) == PrimeiraReferenciaAusente(db.usuarios, db.instituicoes, db.tiposDoacao, usuarioId, instituicaoId, tipoDoacaoId)
      && db.doacoes == old(db.doacoes) && db.nextDoacaoId == old(db.nextDoacaoId)
    ensures r.Success? ==>
      && old(db.nextDoacaoId) !in old(db.doacoes)
      && db.doacoes == old(db.doacoes)[old(db.nextDoacaoId) :=
           Doacao(usuarioId, instituicaoId, tipoDoacaoId, quantidade, now, StringOr(statusEntrega, "pendente"))]
      && db.nextDoacaoId == old(db.nextDoacaoId) + 1
      && r.value == Resposta(old(db.nextDoacaoId), db.doacoes[old(db.nextDoacaoId)])
      && r.value.quantidade == quantidade
  {
    if usuarioId !in db.usuarios {
      return Failure(UsuarioNaoEncontrado);
    }
    if instituicaoId !in db.instituicoes {
      return Failure(InstituicaoNaoEncontrada);
    }
    if tipoDoacaoId !in db.tiposDoacao {
      return Failure(TipoDoacaoNaoEncontrado);
    }
    var id := db.nextDoacaoId;
    db.doacoes := db.doacoes[id := Doacao(usuarioId, instituicaoId, tipoDoacaoId, quantidade, now, StringOr(statusEntrega, "pendente"))];
    db.nextDoacaoId := id + 1;
    var registro := db.doacoes[id];
    return Success(Resposta(id, registro));
  }
}
