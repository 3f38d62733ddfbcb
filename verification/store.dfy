/** The relational store every business module reads and writes: one field per table,
    one serial counter per table the business layer inserts into, and the invariants the
    store and the business layer together keep. */
module Store {
  import opened Common
  import opened Rows
  import opened Ledger

  /** Every key is a serial value already handed out (serial ids start at 1). */
  ghost predicate KeysBelow<V>(table: map<int, V>, next: int)
  {
    0 < next && forall k :: k in table ==> 0 < k < next
  }

  /** The USUARIOS.email unique constraint. */
  ghost predicate UsuarioEmailsUnique(usuarios: map<int, Usuario>)
  {
    forall a, b :: a in usuarios && b in usuarios && a != b ==> usuarios[a].email != usuarios[b].email
  }

  /** The INSTITUICOES.email unique constraint. */
  ghost predicate InstituicaoEmailsUnique(instituicoes: map<int, Instituicao>)
  {
    forall a, b :: a in instituicoes && b in instituicoes && a != b ==> instituicoes[a].email != instituicoes[b].email
  }

  /** The INSTITUICOES.cnpj unique constraint (NULLs do not collide). */
  ghost predicate InstituicaoCnpjsUnique(instituicoes: map<int, Instituicao>)
  {
    forall a, b :: a in instituicoes && b in instituicoes && a != b && instituicoes[a].cnpj.Some? ==>
      instituicoes[a].cnpj != instituicoes[b].cnpj
  }

  class Db {
    var usuarios: map<int, Usuario>
    var instituicoes: map<int, Instituicao>
    var enderecos: map<int, Endereco>
    var pets: map<int, Pet>
    var swipes: seq<Swipe>
    var matches: seq<MatchRow>
    var adocoes: map<int, Adocao>
    var tiposDoacao: map<int, TipoDoacao>
    var doacoes: map<int, Doacao>
    var resgates: map<int, Resgate>

    var nextUsuarioId: int
    var nextInstituicaoId: int
    var nextEnderecoId: int
    var nextPetId: int
    var nextSwipeId: int
    var nextMatchId: int
    var nextAdocaoId: int
    var nextDoacaoId: int
    var nextResgateId: int

    /** Serial keys, the unique constraints, and the swipe/match ledger invariants. */
    ghost predicate Valid()
      reads this
    {
      && KeysBelow(usuarios, nextUsuarioId)
      && KeysBelow(instituicoes, nextInstituicaoId)
      && KeysBelow(enderecos, nextEnderecoId)
      && KeysBelow(pets, nextPetId)
      && KeysBelow(adocoes, nextAdocaoId)
      && KeysBelow(doacoes, nextDoacaoId)
      && KeysBelow(resgates, nextResgateId)
      && 0 < nextSwipeId
      && UsuarioEmailsUnique(usuarios)
      && InstituicaoEmailsUnique(instituicoes)
      && InstituicaoCnpjsUnique(instituicoes)
      && LedgerInvariant(swipes, matches, nextMatchId, nextPetId)
    }

    /** Every match names the current owner of its pet. Kept by every operation except a
        pet update that moves a pet to another institution. */
    ghost predicate OwnersCurrent()
      reads this
    {
      MatchOwnersCurrent(matches, pets)
    }

    /** An empty store (the donation types are reference data loaded beforehand). */
    constructor (tipos: map<int, TipoDoacao>)
      ensures Valid() && OwnersCurrent()
      ensures usuarios == map[] && instituicoes == map[] && enderecos == map[] && pets == map[]
      ensures swipes == [] && matches == [] && adocoes == map[] && doacoes == map[] && resgates == map[]
      ensures tiposDoacao == tipos
    {
      usuarios, instituicoes, enderecos, pets := map[], map[], map[], map[];
      swipes, matches := [], [];
      adocoes, tiposDoacao, doacoes, resgates := map[], tipos, map[], map[];
      nextUsuarioId, nextInstituicaoId, nextEnderecoId, nextPetId := 1, 1, 1, 1;
      nextSwipeId, nextMatchId, nextAdocaoId, nextDoacaoId, nextResgateId := 1, 1, 1, 1, 1;
    }

    /** `INSERT INTO SWIPES`: appends the row under the next serial id. */
    method InsertSwipe(usuarioId: Option<int>, instituicaoId: Option<int>, petId: int, tipo: Tipo, now: Timestamp)
      requires Valid()
      requires LedgerInvariant(swipes + [Swipe(nextSwipeId, usuarioId, instituicaoId, petId, tipo, now)], matches, nextMatchId, nextPetId)
      modifies this`swipes, this`nextSwipeId
      ensures Valid()
      ensures old(OwnersCurrent()) ==> OwnersCurrent()
      ensures swipes == old(swipes) + [Swipe(old(nextSwipeId), usuarioId, instituicaoId, petId, tipo, now)]
      ensures nextSwipeId == old(nextSwipeId) + 1
    {
      swipes := swipes + [Swipe(nextSwipeId, usuarioId, instituicaoId, petId, tipo, now)];
      nextSwipeId := nextSwipeId + 1;
    }

    /** `INSERT INTO MATCHES` with status `"ativo"`: fails, writing nothing, when the
        (usuario_id, pet_id) unique constraint already has a row for that pair. */
    method InsertMatch(usuarioId: int, instituicaoId: int, petId: int, now: Timestamp) returns (id: Option<int>)
      requires Valid()
      requires !HasMatch(matches, usuarioId, petId) ==>
        LedgerInvariant(swipes, matches + [MatchRow(nextMatchId, usuarioId, instituicaoId, petId, Ativo, now, now)], nextMatchId + 1, nextPetId)
      modifies this`matches, this`nextMatchId
      ensures Valid()
      ensures old(OwnersCurrent()) && (petId in pets ==> pets[petId].instituicaoId == instituicaoId) ==> OwnersCurrent()
      ensures HasMatch(old(matches), usuarioId, petId) ==>
        id == None && matches == old(matches) && nextMatchId == old(nextMatchId)
      ensures !HasMatch(old(matches), usuarioId, petId) ==>
        && id == Some(old(nextMatchId))
        && matches == old(matches) + [MatchRow(old(nextMatchId), usuarioId, instituicaoId, petId, Ativo, now, now)]
        && nextMatchId == old(nextMatchId) + 1
    {
      if HasMatch(matches, usuarioId, petId) {
        id := None;
      } else {
        if OwnersCurrent() && (petId in pets ==> pets[petId].instituicaoId == instituicaoId) {
          AppendMatchKeepsOwners(matches, pets, MatchRow(nextMatchId, usuarioId, instituicaoId, petId, Ativo, now, now));
        }
        matches := matches + [MatchRow(nextMatchId, usuarioId, instituicaoId, petId, Ativo, now, now)];
        id := Some(nextMatchId);
        nextMatchId := nextMatchId + 1;
      }
    }
  
    /** `UPDATE MATCHES` of statuses and interaction times: the rows keep their parties. */
    method UpdateMatches(rows: seq<MatchRow>)
      requires Valid() && SameParties(matches, rows)
      modifies this`matches
      ensures Valid() && matches == rows
      ensures old(OwnersCurrent()) ==> OwnersCurrent()
    {
      SamePartiesKeepInvariants(matches, rows, swipes, pets, nextMatchId, nextPetId);
      matches := rows;
    }
  }
}
