/** The swipe-and-match engine: discovery feeds for users and institutions, the two swipe
    operations that append to SWIPES and create MATCHES rows on a reciprocal like, the
    listings of active matches, and the scoped lookup and status update of a match. */
module MatchBusiness {
  import opened Common
  import opened Seqs
  import opened Rows
  import opened Ledger
  import opened Store

  const MsgMatch: string := "\U{1F389} Match! Vocês deram like um no outro!"
  const MsgLike: string := "Like registrado! Aguardando match..."
  const MsgPass: string := "Pass registrado"

  /** The message a swipe answers with. */
  function SwipeMessage(matched: bool, tipo: Tipo): string
  {
    if matched then MsgMatch else if tipo == Like then MsgLike else MsgPass
  }

  /** A pet open for adoption: status `"disponível"` and active. */
  predicate PetDisponivel(pet: Pet)
  {
    pet.statusAdocao == "disponível" && pet.ativo
  }

  // ----- descobrirPets -----

  /** `SELECT pet_id FROM SWIPES WHERE usuario_id = u`: the pets the user has judged. */
  function SwipedPetIds(swipes: seq<Swipe>, u: int): (r: set<int>)
    ensures forall p :: p in r <==> HasUserSwipe(swipes, u, p)
  {
    set k | 0 <= k < |swipes| && swipes[k].usuarioId == Some(u) :: swipes[k].petId
  }

  /** The exclusion list of the feed query: the judged pets, or `{0}` when there are none
      (an empty `whereNotIn` list is replaced by a placeholder id). */
  function PetsVistos(swipes: seq<Swipe>, u: int): (r: set<int>)
    ensures forall p :: HasUserSwipe(swipes, u, p) ==> p in r
    ensures forall p :: p != 0 && p in r ==> HasUserSwipe(swipes, u, p)
  {
    var ids := SwipedPetIds(swipes, u);
    if |ids| > 0 then ids else {0}
  }

  /** The feed query's `WHERE` clause for one pet id. */
  predicate ElegivelParaUsuario(pets: map<int, Pet>, matches: seq<MatchRow>, vistos: set<int>, u: int, id: int)
  {
    id in pets && PetDisponivel(pets[id]) && id !in vistos && !HasActiveMatch(matches, u, id)
  }

  /** A pet's feed profile, with the name of its institution from the outer join. */
  function PerfilPet(id: int, pet: Pet, instituicoes: map<int, Instituicao>): PetPerfil
  {
    PetPerfil(id, pet.nome, pet.especie, pet.raca, pet.sexo, pet.idadeAproximada, pet.porte, pet.cor,
              pet.vacinado, pet.castrado, pet.descricaoSaude, pet.historia, pet.instituicaoId,
              if pet.instituicaoId in instituicoes then Some(instituicoes[pet.instituicaoId].nome) else None,
              pet.dataCadastro)
  }

  /** The ids the feed query returns: the eligible pets in `order`, at most `limite` of them.
      Every eligible pet is among them when fewer than `limite` are (the placeholder id 0
      aside: it is never a pet's serial id). */
  function IdsPetsElegiveis(
    pets: map<int, Pet>, swipes: seq<Swipe>, matches: seq<MatchRow>, usuarioId: int, limite: nat, order: seq<int>)
    : (ids: seq<int>)
    requires Enumerates(order, pets.Keys)
    ensures |ids| <= limite && Distinct(ids)
    ensures forall id :: id in ids ==>
      id in pets && PetDisponivel(pets[id]) && !HasUserSwipe(swipes, usuarioId, id) && !HasActiveMatch(matches, usuarioId, id)
    ensures |ids| < limite ==> forall id ::
      id in pets && id != 0 && PetDisponivel(pets[id]) &&
      !HasUserSwipe(swipes, usuarioId, id) && !HasActiveMatch(matches, usuarioId, id)
      ==> id in ids
  {
    var vistos := PetsVistos(swipes, usuarioId);
    Take(Filter(order, id => ElegivelParaUsuario(pets, matches, vistos, usuarioId, id)), limite)
  }

  /** The profiles of the pets `ids`, in the same order. */
  function PerfisPets(ids: seq<int>, pets: map<int, Pet>, instituicoes: map<int, Instituicao>): (r: seq<PetPerfil>)
    requires forall id :: id in ids ==> id in pets
    ensures |r| == |ids|
    ensures forall k :: 0 <= k < |r| ==> r[k].id == ids[k] && r[k] == PerfilPet(ids[k], pets[ids[k]], instituicoes)
    ensures forall id :: id in ids ==> exists k :: 0 <= k < |r| && r[k].id == id
  {
    assert forall k :: 0 <= k < |ids| ==> ids[k] in ids;
    var r := seq(|ids|, k requires 0 <= k < |ids| => PerfilPet(ids[k], pets[ids[k]], instituicoes));
    assert forall id :: id in ids ==> exists k :: 0 <= k < |r| && r[k].id == id by {
      forall id | id in ids ensures exists k :: 0 <= k < |r| && r[k].id == id {
        var k :| 0 <= k < |ids| && ids[k] == id;
        assert r[k].id == id;
      }
    }
    r
  }

  /** `descobrirPets`: up to `limite` available, active pets the user has neither judged nor
      actively matched, taken in `order` (the order `ORDER BY RANDOM()` produced). */
  function DescobrirPets(
    pets: map<int, Pet>, instituicoes: map<int, Instituicao>, swipes: seq<Swipe>, matches: seq<MatchRow>,
    usuarioId: int, limite: nat, order: seq<int>): (r: seq<PetPerfil>)
    requires Enumerates(order, pets.Keys)
    ensures |r| <= limite
    ensures forall k :: 0 <= k < |r| ==>
      && r[k].id in pets
      && r[k] == PerfilPet(r[k].id, pets[r[k].id], instituicoes)
      && PetDisponivel(pets[r[k].id])
      && !HasUserSwipe(swipes, usuarioId, r[k].id)
      && !HasActiveMatch(matches, usuarioId, r[k].id)
    ensures forall j, k :: 0 <= j < k < |r| ==> r[j].id != r[k].id
    ensures |r| < limite ==> forall id ::
      id in pets && id != 0 && PetDisponivel(pets[id]) &&
      !HasUserSwipe(swipes, usuarioId, id) && !HasActiveMatch(matches, usuarioId, id)
      ==> exists k :: 0 <= k < |r| && r[k].id == id
  {
    PerfisPets(IdsPetsElegiveis(pets, swipes, matches, usuarioId, limite, order), pets, instituicoes)
  }

  // ----- descobrirUsuarios -----

  /** `SELECT DISTINCT usuario_id FROM SWIPES` of likes on the pet by users without an
      active match on it. */
  function UsuariosComLike(swipes: seq<Swipe>, matches: seq<MatchRow>, petId: int): (r: set<int>)
    ensures forall u :: u in r <==> HasUserLike(swipes, u, petId) && !HasActiveMatch(matches, u, petId)
  {
    var r := set k | 0 <= k < |swipes| && swipes[k].petId == petId && swipes[k].tipo == Like
                     && swipes[k].usuarioId.Some? && !HasActiveMatch(matches, swipes[k].usuarioId.value, petId)
                   :: swipes[k].usuarioId.value;
    assert forall u :: HasUserLike(swipes, u, petId) && !HasActiveMatch(matches, u, petId) ==> u in r by {
      forall u | HasUserLike(swipes, u, petId) && !HasActiveMatch(matches, u, petId) ensures u in r {
        var k :| 0 <= k < |swipes| && swipes[k].usuarioId == Some(u) && swipes[k].petId == petId && swipes[k].tipo == Like;
        assert swipes[k].usuarioId.value == u;
      }
    }
    r
  }

  /** `COUNT(pa.id)` over the user's adoption processes with status `"aprovada"`. */
  function TotalAdocoes(adocoes: map<int, Adocao>, u: int): nat
  {
    |AdocoesAprovadas(adocoes, u)|
  }

  /** The ids of the user's requests with status "aprovada". */
  function AdocoesAprovadas(adocoes: map<int, Adocao>, u: int): set<int>
  {
    set k | k in adocoes && adocoes[k].usuarioId == u && adocoes[k].status == "aprovada"
  }

  /** A user's profile as an institution's feed shows it. */
  function PerfilUsuario(id: int, usuario: Usuario, adocoes: map<int, Adocao>): UsuarioPerfil
  {
    UsuarioPerfil(id, usuario.nome, usuario.email, usuario.telefone, usuario.dataCadastro, TotalAdocoes(adocoes, id))
  }

  /** The ids the institution's feed query returns: the active users among `candidatos`,
      in `order`, at most `limite` of them. */
  function IdsUsuariosElegiveis(usuarios: map<int, Usuario>, candidatos: set<int>, limite: nat, order: seq<int>)
    : (ids: seq<int>)
    requires Enumerates(order, usuarios.Keys)
    ensures |ids| <= limite && Distinct(ids)
    ensures forall id :: id in ids ==> id in candidatos && id in usuarios && usuarios[id].ativo
    ensures |ids| < limite ==> forall id :: id in candidatos && id in usuarios && usuarios[id].ativo ==> id in ids
  {
    Take(Filter(order, id => id in candidatos && id in usuarios && usuarios[id].ativo), limite)
  }

  /** The profiles of the users `ids`, in the same order. */
  function PerfisUsuarios(ids: seq<int>, usuarios: map<int, Usuario>, adocoes: map<int, Adocao>): (r: seq<UsuarioPerfil>)
    requires forall id :: id in ids ==> id in usuarios
    ensures |r| == |ids|
    ensures forall k :: 0 <= k < |r| ==> r[k].id == ids[k] && r[k] == PerfilUsuario(ids[k], usuarios[ids[k]], adocoes)
    ensures forall id :: id in ids ==> exists k :: 0 <= k < |r| && r[k].id == id
  {
    assert forall k :: 0 <= k < |ids| ==> ids[k] in ids;
    var r := seq(|ids|, k requires 0 <= k < |ids| => PerfilUsuario(ids[k], usuarios[ids[k]], adocoes));
    assert forall id :: id in ids ==> exists k :: 0 <= k < |r| && r[k].id == id by {
      forall id | id in ids ensures exists k :: 0 <= k < |r| && r[k].id == id {
        var k :| 0 <= k < |ids| && ids[k] == id;
        assert r[k].id == id;
      }
    }
    r
  }

  /** `descobrirUsuarios`: for a pet of the institution, up to `limite` active users who
      liked it and have no active match on it, taken in `order` (the random order). */
  function DescobrirUsuarios(
    pets: map<int, Pet>, usuarios: map<int, Usuario>, swipes: seq<Swipe>, matches: seq<MatchRow>,
    adocoes: map<int, Adocao>, instituicaoId: int, petId: int, limite: nat, order: seq<int>): (r: seq<UsuarioPerfil>)
    requires Enumerates(order, usuarios.Keys)
    ensures !(petId in pets && pets[petId].instituicaoId == instituicaoId) ==> r == []
    ensures (forall u :: !HasUserLike(swipes, u, petId)) ==> r == []
    ensures |r| <= limite
    ensures forall k :: 0 <= k < |r| ==>
      && r[k].id in usuarios
      && usuarios[r[k].id].ativo
      && HasUserLike(swipes, r[k].id, petId)
      && !HasActiveMatch(matches, r[k].id, petId)
      && r[k] == PerfilUsuario(r[k].id, usuarios[r[k].id], adocoes)
    ensures forall j, k :: 0 <= j < k < |r| ==> r[j].id != r[k].id
    ensures petId in pets && pets[petId].instituicaoId == instituicaoId && |r| < limite ==> forall u ::
      u in usuarios && usuarios[u].ativo && HasUserLike(swipes, u, petId) && !HasActiveMatch(matches, u, petId)
      ==> exists k :: 0 <= k < |r| && r[k].id == u
  {
    if !(petId in pets && pets[petId].instituicaoId == instituicaoId) then []
    else
      var candidatos := UsuariosComLike(swipes, matches, petId);
      if |candidatos| == 0 then []
      else
        PerfisUsuarios(IdsUsuariosElegiveis(usuarios, candidatos, limite, order), usuarios, adocoes)
  }

  // ----- listarMatchesUsuario / listarMatchesInstituicao -----

  /** Ordered by `ultima_interacao` descending. */
  ghost predicate MaisRecentesPrimeiro(s: seq<MatchRow>)
  {
    forall j, k :: 0 <= j < k < |s| ==> s[j].ultimaInteracao >= s[k].ultimaInteracao
  }

  /** Inserts `m` into a list ordered by `ultima_interacao` descending. */
  function InserirPorInteracao(m: MatchRow, s: seq<MatchRow>): (r: seq<MatchRow>)
    requires MaisRecentesPrimeiro(s)
    ensures MaisRecentesPrimeiro(r)
    ensures forall x :: x in r <==> x == m || x in s
  {
    if s == [] || s[0].ultimaInteracao <= m.ultimaInteracao then [m] + s
    else
      var rest := InserirPorInteracao(m, s[1..]);
      assert s == [s[0]] + s[1..];
      assert forall x :: x in rest ==> x.ultimaInteracao <= s[0].ultimaInteracao;
      [s[0]] + rest
  }

  /** Inserting adds exactly `m`: the result is a permutation of `s` plus `m`. */
  lemma {:induction false} InserirPermuta(m: MatchRow, s: seq<MatchRow>)
    requires MaisRecentesPrimeiro(s)
    ensures multiset(InserirPorInteracao(m, s)) == multiset(s) + multiset{m}
  {
    if s == [] || s[0].ultimaInteracao <= m.ultimaInteracao {
    } else {
      InserirPermuta(m, s[1..]);
      assert s == [s[0]] + s[1..];
    }
  }

  /** `ORDER BY ultima_interacao DESC` (rows with equal times in some order). */
  function OrdenarPorInteracao(s: seq<MatchRow>): (r: seq<MatchRow>)
    ensures MaisRecentesPrimeiro(r)
    ensures forall x :: x in r <==> x in s
    ensures multiset(r) == multiset(s)
  {
    if s == [] then []
    else
      assert s == [s[0]] + s[1..];
      InserirPermuta(s[0], OrdenarPorInteracao(s[1..]));
      InserirPorInteracao(s[0], OrdenarPorInteracao(s[1..]))
  }

  /** A match row with its outer-joined display columns. */
  function Detalhar(m: MatchRow, usuarios: map<int, Usuario>, instituicoes: map<int, Instituicao>, pets: map<int, Pet>): MatchDetalhado
  {
    MatchDetalhado(
      m.id, m.usuarioId,
      if m.usuarioId in usuarios then Some(usuarios[m.usuarioId].nome) else None,
      if m.usuarioId in usuarios then Some(usuarios[m.usuarioId].email) else None,
      m.instituicaoId,
      if m.instituicaoId in instituicoes then Some(instituicoes[m.instituicaoId].nome) else None,
      m.petId,
      if m.petId in pets then Some(pets[m.petId].nome) else None,
      if m.petId in pets then Some(pets[m.petId].especie) else None,
      if m.petId in pets then pets[m.petId].raca else None,
      if m.petId in pets then pets[m.petId].cor else None,
      m.status, m.dataMatch, m.ultimaInteracao)
  }

  /** The rows `rows`, detailed, in the same order. */
  function DetalharTodos(rows: seq<MatchRow>, usuarios: map<int, Usuario>, instituicoes: map<int, Instituicao>, pets: map<int, Pet>)
    : (r: seq<MatchDetalhado>)
    ensures |r| == |rows|
    ensures forall k :: 0 <= k < |r| ==> r[k] == Detalhar(rows[k], usuarios, instituicoes, pets)
    ensures forall m :: m in rows ==> Detalhar(m, usuarios, instituicoes, pets) in r
  {
    if rows == [] then []
    else
      var rest := DetalharTodos(rows[1..], usuarios, instituicoes, pets);
      assert forall m :: m in rows ==> m == rows[0] || m in rows[1..];
      [Detalhar(rows[0], usuarios, instituicoes, pets)] + rest
  }

  /** Detailing a list row by row keeps its order by last interaction. */
  lemma DetalharMantemOrdem(rows: seq<MatchRow>, r: seq<MatchDetalhado>)
    requires MaisRecentesPrimeiro(rows) && |r| == |rows|
    requires forall k :: 0 <= k < |r| ==> r[k].ultimaInteracao == rows[k].ultimaInteracao
    ensures forall j, k :: 0 <= j < k < |r| ==> r[j].ultimaInteracao >= r[k].ultimaInteracao
  {
  }

  /** Whose matches a listing shows: a user's or an institution's. */
  datatype Parte = DoUsuario(id: int) | DaInstituicao(id: int)

  /** The match row is one of the party's `"ativo"` matches. */
  predicate AtivoDe(m: MatchRow, parte: Parte)
  {
    m.status == Ativo && (if parte.DoUsuario? then m.usuarioId == parte.id else m.instituicaoId == parte.id)
  }

  /** The `WHERE` of a listing: the party's `"ativo"` rows, in table order. */
  function AtivosDe(matches: seq<MatchRow>, parte: Parte): (rows: seq<MatchRow>)
    ensures forall m :: m in rows <==> m in matches && AtivoDe(m, parte)
    ensures Distinct(matches) ==> Distinct(rows)
  {
    Filter(matches, m => AtivoDe(m, parte))
  }

  /** The party's `"ativo"` rows, most recent interaction first: a permutation of the
      selected rows, so each one as often as the table holds it. */
  function AtivosPorInteracao(matches: seq<MatchRow>, parte: Parte): (rows: seq<MatchRow>)
    ensures multiset(rows) == multiset(AtivosDe(matches, parte))
    ensures forall m :: m in rows <==> m in matches && AtivoDe(m, parte)
    ensures MaisRecentesPrimeiro(rows)
  {
    OrdenarPorInteracao(AtivosDe(matches, parte))
  }

  /** The party's `"ativo"` matches, most recent interaction first, detailed. */
  function ListarAtivos(
    matches: seq<MatchRow>, usuarios: map<int, Usuario>, instituicoes: map<int, Instituicao>, pets: map<int, Pet>,
    parte: Parte): (r: seq<MatchDetalhado>)
    ensures forall k :: 0 <= k < |r| ==> exists m :: m in matches && AtivoDe(m, parte) && r[k] == Detalhar(m, usuarios, instituicoes, pets)
    ensures forall m :: m in matches && AtivoDe(m, parte) ==> Detalhar(m, usuarios, instituicoes, pets) in r
    ensures forall j, k :: 0 <= j < k < |r| ==> r[j].ultimaInteracao >= r[k].ultimaInteracao
    ensures |r| == |AtivosDe(matches, parte)|
  {
    var rows := AtivosPorInteracao(matches, parte);
    assert |rows| == |multiset(rows)| == |AtivosDe(matches, parte)|;
    var r := DetalharTodos(rows, usuarios, instituicoes, pets);
    assert forall k :: 0 <= k < |r| ==>
      exists m :: m in matches && AtivoDe(m, parte) && r[k] == Detalhar(m, usuarios, instituicoes, pets) by {
      forall k | 0 <= k < |r|
        ensures exists m :: m in matches && AtivoDe(m, parte) && r[k] == Detalhar(m, usuarios, instituicoes, pets)
      {
        assert rows[k] in rows;
      }
    }
    DetalharMantemOrdem(rows, r);
    r
  }

  /** On a table without repeated rows (match ids are distinct), a listing shows each of
      the party's active matches exactly once. */
  lemma ListagemSemRepeticao(
    matches: seq<MatchRow>, usuarios: map<int, Usuario>, instituicoes: map<int, Instituicao>, pets: map<int, Pet>,
    parte: Parte)
    requires Distinct(matches)
    ensures Distinct(ListarAtivos(matches, usuarios, instituicoes, pets, parte))
  {
    var rows := AtivosPorInteracao(matches, parte);
    PermutationKeepsDistinct(AtivosDe(matches, parte), rows);
    var r := DetalharTodos(rows, usuarios, instituicoes, pets);
    assert r == ListarAtivos(matches, usuarios, instituicoes, pets, parte);
    forall i, j | 0 <= i < j < |r| ensures r[i] != r[j] {
      assert rows[i] != rows[j];
    }
  }

  /** `listarMatchesUsuario`: the user's `"ativo"` matches, most recent interaction first. */
  function ListarMatchesUsuario(
    matches: seq<MatchRow>, usuarios: map<int, Usuario>, instituicoes: map<int, Instituicao>, pets: map<int, Pet>,
    usuarioId: int): (r: seq<MatchDetalhado>)
    ensures forall k :: 0 <= k < |r| ==> r[k].usuarioId == usuarioId && r[k].status == Ativo
    ensures forall k :: 0 <= k < |r| ==> exists m :: m in matches && r[k] == Detalhar(m, usuarios, instituicoes, pets)
    ensures forall m :: m in matches && m.usuarioId == usuarioId && m.status == Ativo ==>
      Detalhar(m, usuarios, instituicoes, pets) in r
    ensures forall j, k :: 0 <= j < k < |r| ==> r[j].ultimaInteracao >= r[k].ultimaInteracao
    ensures |r| == |AtivosDe(matches, DoUsuario(usuarioId))|
  {
    ListarAtivos(matches, usuarios, instituicoes, pets, DoUsuario(usuarioId))
  }

  /** `listarMatchesInstituicao`: the institution's `"ativo"` matches, most recent interaction first. */
  function ListarMatchesInstituicao(
    matches: seq<MatchRow>, usuarios: map<int, Usuario>, instituicoes: map<int, Instituicao>, pets: map<int, Pet>,
    instituicaoId: int): (r: seq<MatchDetalhado>)
    ensures forall k :: 0 <= k < |r| ==> r[k].instituicaoId == instituicaoId && r[k].status == Ativo
    ensures forall k :: 0 <= k < |r| ==> exists m :: m in matches && r[k] == Detalhar(m, usuarios, instituicoes, pets)
    ensures forall m :: m in matches && m.instituicaoId == instituicaoId && m.status == Ativo ==>
      Detalhar(m, usuarios, instituicoes, pets) in r
    ensures forall j, k :: 0 <= j < k < |r| ==> r[j].ultimaInteracao >= r[k].ultimaInteracao
    ensures |r| == |AtivosDe(matches, DaInstituicao(instituicaoId))|
  {
    ListarAtivos(matches, usuarios, instituicoes, pets, DaInstituicao(instituicaoId))
  }

  // ----- buscarMatchPorId / atualizarStatusMatch -----

  /** A match row is the one asked for: its id, and its user and institution whenever the
      caller passed a truthy scope id. */
  predicate NoEscopo(m: MatchRow, matchId: int, usuarioId: Option<int>, instituicaoId: Option<int>)
  {
    && m.id == matchId
    && (TruthyInt(usuarioId) ==> m.usuarioId == usuarioId.value)
    && (TruthyInt(instituicaoId) ==> m.instituicaoId == instituicaoId.value)
  }

  /** The `WHERE` clauses the query builder accumulates. */
  datatype MatchQuery = MatchQuery(id: int, usuarioId: Option<int>, instituicaoId: Option<int>)

  predicate Seleciona(q: MatchQuery, m: MatchRow)
  {
    && m.id == q.id
    && (q.usuarioId.Some? ==> m.usuarioId == q.usuarioId.value)
    && (q.instituicaoId.Some? ==> m.instituicaoId == q.instituicaoId.value)
  }

  /** Builds the query clause by clause, adding a scope only for a truthy id. */
  method MontarConsulta(matchId: int, usuarioId: Option<int>, instituicaoId: Option<int>) returns (q: MatchQuery)
    ensures forall m :: Seleciona(q, m) <==> NoEscopo(m, matchId, usuarioId, instituicaoId)
  {
    q := MatchQuery(matchId, None, None);
    if TruthyInt(usuarioId) {
      q := q.(usuarioId := usuarioId);
    }
    if TruthyInt(instituicaoId) {
      q := q.(instituicaoId := instituicaoId);
    }
  }

  /** `.first()`: the first row the query selects. */
  function Primeiro(matches: seq<MatchRow>, q: MatchQuery): (r: Option<MatchRow>)
    ensures r.None? <==> forall k :: 0 <= k < |matches| ==> !Seleciona(q, matches[k])
    ensures r.Some? ==> r.value in matches && Seleciona(q, r.value)
  {
    if matches == [] then None
    else if Seleciona(q, matches[0]) then Some(matches[0])
    else
      var r := Primeiro(matches[1..], q);
      assert forall k :: 1 <= k < |matches| ==> matches[k] == matches[1..][k - 1];
      r
  }

  /** `buscarMatchPorId`: the match with that id within the caller's scope, detailed, or
      nothing. Reads the store only. */
  method BuscarMatchPorId(db: Db, matchId: int, usuarioId: Option<int>, instituicaoId: Option<int>)
    returns (r: Option<MatchDetalhado>)
    requires db.Valid()
    ensures r.None? <==> forall k :: 0 <= k < |db.matches| ==> !NoEscopo(db.matches[k], matchId, usuarioId, instituicaoId)
    ensures r.Some? ==>
      (exists k :: 0 <= k < |db.matches| && NoEscopo(db.matches[k], matchId, usuarioId, instituicaoId) &&
                   r.value == Detalhar(db.matches[k], db.usuarios, db.instituicoes, db.pets))
    ensures r.Some? ==> r.value.id == matchId
  {
    var q := MontarConsulta(matchId, usuarioId, instituicaoId);
    var found := Primeiro(db.matches, q);
    if found.None? {
      return None;
    }
    var m := found.value;
    var k :| 0 <= k < |db.matches| && db.matches[k] == m;
    return Some(Detalhar(m, db.usuarios, db.instituicoes, db.pets));
  }

  /** `UPDATE MATCHES SET status, ultima_interacao WHERE <q>`: the rows keep their ids and
      parties, so the update keeps the ledger invariants. */
  function AtualizarOnde(matches: seq<MatchRow>, q: MatchQuery, status: MatchStatus, now: Timestamp): (r: seq<MatchRow>)
    ensures SameParties(matches, r)
  {
    seq(|matches|, k requires 0 <= k < |matches| =>
      if Seleciona(q, matches[k]) then matches[k].(status := status, ultimaInteracao := now) else matches[k])
  }

  /** `atualizarStatusMatch`: sets the status and the last-interaction time of the match with
      that id within the caller's scope; any status may follow any other. Answers whether a
      row was updated. The status whitelist is checked by the caller. */
  method AtualizarStatusMatch(
    db: Db, matchId: int, novoStatus: MatchStatus, usuarioId: Option<int>, instituicaoId: Option<int>, now: Timestamp)
    returns (updated: bool)
    requires db.Valid()
    modifies db`matches
    ensures db.Valid()
    ensures old(db.OwnersCurrent()) ==> db.OwnersCurrent()
    ensures updated <==> exists k :: 0 <= k < |old(db.matches)| && NoEscopo(old(db.matches)[k], matchId, usuarioId, instituicaoId)
    ensures |db.matches| == |old(db.matches)|
    ensures forall k :: 0 <= k < |db.matches| ==>
      db.matches[k] == if NoEscopo(old(db.matches)[k], matchId, usuarioId, instituicaoId)
                       then old(db.matches)[k].(status := novoStatus, ultimaInteracao := now)
                       else old(db.matches)[k]
  {
    var q := MontarConsulta(matchId, usuarioId, instituicaoId);
    var atuais := db.matches;
    var rows := AtualizarOnde(atuais, q, novoStatus, now);
    updated := exists k | 0 <= k < |atuais| :: Seleciona(q, atuais[k]);
    db.UpdateMatches(rows);
  }

  // ----- swipeUsuario / swipeInstituicao -----

  /** The match step both swipes share once the user and the pet's owner have liked the
      pet: inserts an `"ativo"` match for the pair, or fails, writing nothing, when the
      MATCHES unique constraint already holds a row for that user and pet. */
  method ConcluirMatch(db: Db, usuarioId: int, instituicaoId: int, petId: int, now: Timestamp)
    returns (r: Result<SwipeResponse, Error>)
    requires db.Valid() && petId in db.pets
    requires HasUserLike(db.swipes, usuarioId, petId) && HasInstitutionLike(db.swipes, instituicaoId, petId)
    modifies db`matches, db`nextMatchId
    ensures db.Valid()
    ensures old(db.OwnersCurrent()) && db.pets[petId].instituicaoId == instituicaoId ==> db.OwnersCurrent()
    ensures HasMatch(old(db.matches), usuarioId, petId) ==>
      r == Failure(ErroCriarMatch) && db.matches == old(db.matches) && db.nextMatchId == old(db.nextMatchId)
    ensures !HasMatch(old(db.matches), usuarioId, petId) ==>
      && r == Success(SwipeResponse(true, Some(old(db.nextMatchId)), MsgMatch))
      && db.matches == old(db.matches) + [MatchRow(old(db.nextMatchId), usuarioId, instituicaoId, petId, Ativo, now, now)]
      && db.nextMatchId == old(db.nextMatchId) + 1
  {
    if !HasMatch(db.matches, usuarioId, petId) {
      AppendMatchKeepsInvariants(db.matches, db.swipes, MatchRow(db.nextMatchId, usuarioId, instituicaoId, petId, Ativo, now, now),
                                 db.nextMatchId, db.nextPetId);
    }
    var matchId := db.InsertMatch(usuarioId, instituicaoId, petId, now);
    if matchId.None? {
      r := Failure(ErroCriarMatch);
    } else {
      r := Success(SwipeResponse(true, matchId, MsgMatch));
    }
  }

  /** Appends the user's swipe on a pet the user has not judged. The likes of institutions
      are unchanged, and no match has this user and pet. */
  method GravarSwipeUsuario(db: Db, usuarioId: int, instituicaoId: int, petId: int, tipo: Tipo, now: Timestamp)
    requires db.Valid()
    requires !HasUserSwipe(db.swipes, usuarioId, petId)
    modifies db`swipes, db`nextSwipeId
    ensures db.Valid()
    ensures old(db.OwnersCurrent()) ==> db.OwnersCurrent()
    ensures !HasMatch(db.matches, usuarioId, petId)
    ensures db.swipes == old(db.swipes) + [Swipe(old(db.nextSwipeId), Some(usuarioId), None, petId, tipo, now)]
    ensures HasUserSwipe(db.swipes, usuarioId, petId)
    ensures HasInstitutionLike(db.swipes, instituicaoId, petId) <==> HasInstitutionLike(old(db.swipes), instituicaoId, petId)
    ensures tipo == Like ==> HasUserLike(db.swipes, usuarioId, petId)
  {
    var row := Swipe(db.nextSwipeId, Some(usuarioId), None, petId, tipo, now);
    AppendUserSwipeKeepsInvariants(db.swipes, db.matches, row, db.nextMatchId, db.nextPetId);
    AppendedSwipeIsRecorded(db.swipes, row);
    AppendKeepsLikes(db.swipes, row, usuarioId, instituicaoId, petId);
    UnjudgedPetHasNoMatch(db.matches, db.swipes, usuarioId, petId);
    db.InsertSwipe(Some(usuarioId), None, petId, tipo, now);
  }

  /** `swipeUsuario`: a user likes or passes a pet. Fails, writing nothing, when the pet is
      missing, when it is not open for adoption, or when the user already judged it (checked
      in that order). Otherwise appends the user's swipe, and on a like creates an `"ativo"`
      match with the pet's owner exactly when that owner already liked the pet. */
  method SwipeUsuario(db: Db, usuarioId: int, petId: int, tipo: Tipo, now: Timestamp)
    returns (r: Result<SwipeResponse, Error>)
    requires db.Valid()
    modifies db`swipes, db`nextSwipeId, db`matches, db`nextMatchId
    ensures db.Valid()
    ensures old(db.OwnersCurrent()) ==> db.OwnersCurrent()
    ensures petId !in db.pets ==> r == Failure(PetNaoEncontrado)
    ensures petId in db.pets && !PetDisponivel(db.pets[petId]) ==> r == Failure(PetIndisponivel)
    ensures petId in db.pets && PetDisponivel(db.pets[petId]) && HasUserSwipe(old(db.swipes), usuarioId, petId) ==>
      r == Failure(PetJaAvaliado)
    ensures petId in db.pets && PetDisponivel(db.pets[petId]) && !HasUserSwipe(old(db.swipes), usuarioId, petId) ==>
      r.Success?
    ensures r.Failure? ==>
      && db.swipes == old(db.swipes) && db.nextSwipeId == old(db.nextSwipeId)
      && db.matches == old(db.matches) && db.nextMatchId == old(db.nextMatchId)
    ensures r.Success? ==>
      && petId in db.pets && PetDisponivel(db.pets[petId]) && !HasUserSwipe(old(db.swipes), usuarioId, petId)
      && db.swipes == old(db.swipes) + [Swipe(old(db.nextSwipeId), Some(usuarioId), None, petId, tipo, now)]
      && HasUserSwipe(db.swipes, usuarioId, petId)
      && (r.value.matched <==> tipo == Like && HasInstitutionLike(old(db.swipes), db.pets[petId].instituicaoId, petId))
      && r.value.message == SwipeMessage(r.value.matched, tipo)
    ensures r.Success? && r.value.matched ==>
      && r.value.matchId == Some(old(db.nextMatchId))
      && db.matches == old(db.matches) + [MatchRow(old(db.nextMatchId), usuarioId, db.pets[petId].instituicaoId, petId, Ativo, now, now)]
    ensures r.Success? && !r.value.matched ==>
      r.value.matchId == None && db.matches == old(db.matches) && db.nextMatchId == old(db.nextMatchId)
  {
    if petId !in db.pets {
      r := Failure(PetNaoEncontrado);
    } else if db.pets[petId].statusAdocao != "disponível" || !db.pets[petId].ativo {
      r := Failure(PetIndisponivel);
    } else if HasUserSwipe(db.swipes, usuarioId, petId) {
      r := Failure(PetJaAvaliado);
    } else {
      var pet := db.pets[petId];
      GravarSwipeUsuario(db, usuarioId, pet.instituicaoId, petId, tipo, now);

      if tipo == Like && HasInstitutionLike(db.swipes, pet.instituicaoId, petId) {
        r := ConcluirMatch(db, usuarioId, pet.instituicaoId, petId, now);
      } else {
        r := Success(SwipeResponse(false, None, if tipo == Like then MsgLike else MsgPass));
      }
    }
  }

  /** Appends the institution's swipe on a pet it owns and has not judged. The likes of
      users are unchanged, and while matches name current owners no match has this pet. */
  method GravarSwipeInstituicao(db: Db, instituicaoId: int, usuarioId: int, petId: int, tipo: Tipo, now: Timestamp)
    requires db.Valid()
    requires petId in db.pets && db.pets[petId].instituicaoId == instituicaoId
    requires !HasInstitutionSwipe(db.swipes, instituicaoId, petId)
    modifies db`swipes, db`nextSwipeId
    ensures db.Valid()
    ensures old(db.OwnersCurrent()) ==> db.OwnersCurrent() && !HasMatch(db.matches, usuarioId, petId)
    ensures db.swipes == old(db.swipes) + [Swipe(old(db.nextSwipeId), None, Some(instituicaoId), petId, tipo, now)]
    ensures HasInstitutionSwipe(db.swipes, instituicaoId, petId)
    ensures HasUserLike(db.swipes, usuarioId, petId) <==> HasUserLike(old(db.swipes), usuarioId, petId)
    ensures tipo == Like ==> HasInstitutionLike(db.swipes, instituicaoId, petId)
  {
    var row := Swipe(db.nextSwipeId, None, Some(instituicaoId), petId, tipo, now);
    AppendInstitutionSwipeKeepsInvariants(db.swipes, db.matches, row, db.nextMatchId, db.nextPetId);
    AppendedSwipeIsRecorded(db.swipes, row);
    AppendKeepsLikes(db.swipes, row, usuarioId, instituicaoId, petId);
    if db.OwnersCurrent() {
      OwnerUnjudgedPetHasNoMatch(db.matches, db.swipes, db.pets, instituicaoId, petId, usuarioId);
    }
    db.InsertSwipe(None, Some(instituicaoId), petId, tipo, now);
  }

  /** `swipeInstituicao`: an institution likes or passes one of its pets while looking at a
      user. Fails, writing nothing, when the pet is missing or not the institution's, or when
      the institution already judged the pet for any user. Availability is not checked. The
      appended swipe does not record the user. On a like, an `"ativo"` match is created
      exactly when the named user already liked the pet; the MATCHES unique constraint can
      only refuse it after some pet has changed owner. */
  method SwipeInstituicao(db: Db, instituicaoId: int, usuarioId: int, petId: int, tipo: Tipo, now: Timestamp)
    returns (r: Result<SwipeResponse, Error>)
    requires db.Valid()
    modifies db`swipes, db`nextSwipeId, db`matches, db`nextMatchId
    ensures db.Valid()
    ensures old(db.OwnersCurrent()) ==> db.OwnersCurrent()
    ensures !(petId in db.pets && db.pets[petId].instituicaoId == instituicaoId) ==> r == Failure(PetNaoPertence)
    ensures (petId in db.pets && db.pets[petId].instituicaoId == instituicaoId &&
             HasInstitutionSwipe(old(db.swipes), instituicaoId, petId)) ==> r == Failure(UsuarioJaAvaliado)
    ensures (petId in db.pets && db.pets[petId].instituicaoId == instituicaoId &&
             !HasInstitutionSwipe(old(db.swipes), instituicaoId, petId)) ==> r.Success? || r == Failure(ErroCriarMatch)
    ensures r.Failure? ==> db.matches == old(db.matches) && db.nextMatchId == old(db.nextMatchId)
    ensures r.Failure? && r.error != ErroCriarMatch ==>
      db.swipes == old(db.swipes) && db.nextSwipeId == old(db.nextSwipeId)
    ensures (r.Success? || r == Failure(ErroCriarMatch)) ==>
      && petId in db.pets && db.pets[petId].instituicaoId == instituicaoId
      && !HasInstitutionSwipe(old(db.swipes), instituicaoId, petId)
      && db.swipes == old(db.swipes) + [Swipe(old(db.nextSwipeId), None, Some(instituicaoId), petId, tipo, now)]
      && HasInstitutionSwipe(db.swipes, instituicaoId, petId)
    ensures r == Failure(ErroCriarMatch) ==>
      tipo == Like && HasUserLike(old(db.swipes), usuarioId, petId) && HasMatch(old(db.matches), usuarioId, petId)
    ensures old(db.OwnersCurrent()) ==> r != Failure(ErroCriarMatch)
    ensures r.Success? ==>
      && (r.value.matched <==> tipo == Like && HasUserLike(old(db.swipes), usuarioId, petId))
      && r.value.message == SwipeMessage(r.value.matched, tipo)
    ensures r.Success? && r.value.matched ==>
      && r.value.matchId == Some(old(db.nextMatchId))
      && db.matches == old(db.matches) + [MatchRow(old(db.nextMatchId), usuarioId, instituicaoId, petId, Ativo, now, now)]
    ensures r.Success? && !r.value.matched ==>
      r.value.matchId == None && db.matches == old(db.matches) && db.nextMatchId == old(db.nextMatchId)
  {
    if !(petId in db.pets && db.pets[petId].instituicaoId == instituicaoId) {
      r := Failure(PetNaoPertence);
    } else if HasInstitutionSwipe(db.swipes, instituicaoId, petId) {
      r := Failure(UsuarioJaAvaliado);
    } else {
      GravarSwipeInstituicao(db, instituicaoId, usuarioId, petId, tipo, now);
      if tipo == Like && HasUserLike(db.swipes, usuarioId, petId) {
        r := ConcluirMatch(db, usuarioId, instituicaoId, petId, now);
      } else {
        r := Success(SwipeResponse(false, None, if tipo == Like then MsgLike else MsgPass));
      }
    }
  }

  // ----- Consequences across calls -----

  /** A user cannot judge the same pet twice: once a swipe went through, the next one on the
      same pet fails as already judged and writes nothing. */
  method SegundoSwipeRecusado(db: Db, usuarioId: int, petId: int, primeiro: Tipo, segundo: Tipo, t1: Timestamp, t2: Timestamp)
    returns (r1: Result<SwipeResponse, Error>, r2: Result<SwipeResponse, Error>)
    requires db.Valid()
    modifies db`swipes, db`nextSwipeId, db`matches, db`nextMatchId
    ensures db.Valid()
    ensures r1.Success? ==> r2 == Failure(PetJaAvaliado)
  {
    r1 := SwipeUsuario(db, usuarioId, petId, primeiro, t1);
    r2 := SwipeUsuario(db, usuarioId, petId, segundo, t2);
  }

  /** The institution's single like on a pet, given while looking at one user, turns every
      later like of any other user on that pet into a match. */
  method LikeDaInstituicaoValeParaTodos(
    db: Db, instituicaoId: int, avaliado: int, outro: int, petId: int, t1: Timestamp, t2: Timestamp)
    returns (r1: Result<SwipeResponse, Error>, r2: Result<SwipeResponse, Error>)
    requires db.Valid() && db.OwnersCurrent()
    requires petId in db.pets && db.pets[petId].instituicaoId == instituicaoId && PetDisponivel(db.pets[petId])
    requires !HasInstitutionSwipe(db.swipes, instituicaoId, petId)
    requires !HasUserSwipe(db.swipes, outro, petId)
    modifies db`swipes, db`nextSwipeId, db`matches, db`nextMatchId
    ensures db.Valid()
    ensures r1.Success?
    ensures r2.Success? && r2.value.matched
    ensures |db.matches| > 0 && db.matches[|db.matches| - 1].usuarioId == outro
  {
    ghost var swipes0 := db.swipes;
    r1 := SwipeInstituicao(db, instituicaoId, avaliado, petId, Like, t1);
    ghost var row := db.swipes[|db.swipes| - 1];
    assert db.swipes == swipes0 + [row];
    AppendedSwipeIsRecorded(swipes0, row);
    AppendKeepsLikes(swipes0, row, outro, instituicaoId, petId);
    r2 := SwipeUsuario(db, outro, petId, Like, t2);
  }
}
