/** Institutions: listing, registration with a unique email and an optional unique CNPJ,
    lookup, field-wise update and removal. */
module InstituicaoBusiness {
  import opened Common
  import opened Seqs
  import opened Rows
  import opened Store

  /** Some institution has this email. */
  predicate EmailEmUso(instituicoes: map<int, Instituicao>, email: string)
  {
    exists id | id in instituicoes :: instituicoes[id].email == email
  }

  /** Some institution has this CNPJ. */
  predicate CnpjEmUso(instituicoes: map<int, Instituicao>, cnpj: string)
  {
    exists id | id in instituicoes :: instituicoes[id].cnpj == Some(cnpj)
  }

  /** Some institution other than `self` has this email. */
  predicate EmailEmUsoPorOutra(instituicoes: map<int, Instituicao>, email: string, self: int)
  {
    exists id | id in instituicoes :: id != self && instituicoes[id].email == email
  }

  /** Some institution other than `self` has this CNPJ. */
  predicate CnpjEmUsoPorOutra(instituicoes: map<int, Instituicao>, cnpj: string, self: int)
  {
    exists id | id in instituicoes :: id != self && instituicoes[id].cnpj == Some(cnpj)
  }

  /** An institution row as returned to callers. */
  function Resposta(id: int, i: Instituicao): InstituicaoResponse
  {
    InstituicaoResponse(id, i.nome, i.cnpj, i.email, i.telefone, i.linkSite, i.descricao, i.enderecoId, Some(i.dataCadastro))
  }

  /** `listarInstituicoes`: every institution, once, in the order the store returned them. */
  function ListarInstituicoes(instituicoes: map<int, Instituicao>, order: seq<int>): (r: seq<InstituicaoResponse>)
    requires Enumerates(order, instituicoes.Keys)
    ensures |r| == |instituicoes|
    ensures forall k :: 0 <= k < |r| ==> r[k].id in instituicoes && r[k] == Resposta(r[k].id, instituicoes[r[k].id])
    ensures forall id :: id in instituicoes ==> exists k :: 0 <= k < |r| && r[k].id == id
  {
    DistinctEnumerationHasSize(order, instituicoes.Keys);
    assert forall k :: 0 <= k < |order| ==> order[k] in order;
    var r := seq(|order|, k requires 0 <= k < |order| => Resposta(order[k], instituicoes[order[k]]));
    assert forall id :: id in instituicoes ==> exists k :: 0 <= k < |r| && r[k].id == id by {
      forall id | id in instituicoes ensures exists k :: 0 <= k < |r| && r[k].id == id {
        var k :| 0 <= k < |order| && order[k] == id;
        assert r[k].id == id;
      }
    }
    r
  }

  /** The values a registration supplies; `None` is an absent field. */
  datatype NovaInstituicao = NovaInstituicao(
    nome: string,
    email: string,
    cnpj: Option<string>,
    telefone: Option<string>,
    linkSite: Option<string>,
    descricao: Option<string>,
    enderecoId: Option<int>)

  /** The row a registration stores: falsy optional fields become NULL. */
  function LinhaNova(dados: NovaInstituicao, now: Timestamp): (row: Instituicao)
    ensures row.nome == dados.nome && row.email == dados.email && row.dataCadastro == now
    ensures row.cnpj.Some? <==> TruthyString(dados.cnpj)
    ensures row.telefone.Some? <==> TruthyString(dados.telefone)
    ensures row.linkSite.Some? <==> TruthyString(dados.linkSite)
    ensures row.descricao.Some? <==> TruthyString(dados.descricao)
    ensures row.enderecoId.Some? <==> TruthyInt(dados.enderecoId)
    ensures row.cnpj.Some? ==> row.cnpj == dados.cnpj
    ensures row.telefone.Some? ==> row.telefone == dados.telefone
    ensures row.linkSite.Some? ==> row.linkSite == dados.linkSite
    ensures row.descricao.Some? ==> row.descricao == dados.descricao
    ensures row.enderecoId.Some? ==> row.enderecoId == dados.enderecoId
  {
    Instituicao(dados.nome, StringOrNull(dados.cnpj), dados.email, StringOrNull(dados.telefone),
                StringOrNull(dados.linkSite), StringOrNull(dados.descricao), IntOrNull(dados.enderecoId), now)
  }

  /** `criarInstituicao`: rejects a registered email, then a registered CNPJ (only when one
      is supplied), writing nothing; otherwise inserts one row and returns it. */
  method CriarInstituicao(db: Db, dados: NovaInstituicao, now: Timestamp) returns (r: Result<InstituicaoResponse, Error>)
    requires db.Valid()
    modifies db`instituicoes, db`nextInstituicaoId
    ensures db.Valid()
    ensures EmailEmUso(old(db.instituicoes), dados.email) ==> r == Failure(EmailJaCadastrado)
    ensures (!EmailEmUso(old(db.instituicoes), dados.email) && TruthyString(dados.cnpj) &&
             CnpjEmUso(old(db.instituicoes), dados.cnpj.value)) ==> r == Failure(CnpjJaCadastrado)
    ensures r.Failure? ==> db.instituicoes == old(db.instituicoes) && db.nextInstituicaoId == old(db.nextInstituicaoId)
    ensures r.Success? ==>
      && !EmailEmUso(old(db.instituicoes), dados.email)
      && !(TruthyString(dados.cnpj) && CnpjEmUso(old(db.instituicoes), dados.cnpj.value))
      && old(db.nextInstituicaoId) !in old(db.instituicoes)
      && db.instituicoes == old(db.instituicoes)[old(db.nextInstituicaoId) := LinhaNova(dados, now)]
      && db.nextInstituicaoId == old(db.nextInstituicaoId) + 1
      && r.value == Resposta(old(db.nextInstituicaoId), LinhaNova(dados, now))
  {
    if EmailEmUso(db.instituicoes, dados.email) {
      return Failure(EmailJaCadastrado);
    }
    if TruthyString(dados.cnpj) {
      if CnpjEmUso(db.instituicoes, dados.cnpj.value) {
        return Failure(CnpjJaCadastrado);
      }
    }
    var id := db.nextInstituicaoId;
    var row := LinhaNova(dados, now);
    db.instituicoes := db.instituicoes[id := row];
    db.nextInstituicaoId := id + 1;
    var criada := db.instituicoes[id];
    return Success(Resposta(id, criada));
  }

  /** `buscarInstituicaoPorId`: the institution, or nothing for an unknown id. */
  function BuscarInstituicaoPorId(instituicoes: map<int, Instituicao>, id: int): (r: Option<InstituicaoResponse>)
    ensures r.None? <==> id !in instituicoes
    ensures r.Some? ==> r.value.id == id && r.value == Resposta(id, instituicoes[id])
  {
    if id in instituicoes then Some(Resposta(id, instituicoes[id])) else None
  }

  /** The values an update supplies; `None` is an absent field. */
  datatype DadosInstituicao = DadosInstituicao(
    nome: Option<string>,
    email: Option<string>,
    cnpj: Option<string>,
    telefone: Option<string>,
    linkSite: Option<string>,
    descricao: Option<string>,
    enderecoId: Option<int>)

  /** The `updateData` object: `Some(v)` sets the column to `v`. */
  datatype InstituicaoPatch = InstituicaoPatch(
    nome: Option<string>,
    email: Option<string>,
    cnpj: Option<Option<string>>,
    telefone: Option<Option<string>>,
    linkSite: Option<Option<string>>,
    descricao: Option<Option<string>>,
    enderecoId: Option<Option<int>>)

  const PatchVazio := InstituicaoPatch(None, None, None, None, None, None, None)

  function Aplicar(i: Instituicao, p: InstituicaoPatch): Instituicao
  {
    i.(nome := Coalesce(p.nome, i.nome), email := Coalesce(p.email, i.email), cnpj := Coalesce(p.cnpj, i.cnpj),
       telefone := Coalesce(p.telefone, i.telefone), linkSite := Coalesce(p.linkSite, i.linkSite),
       descricao := Coalesce(p.descricao, i.descricao), enderecoId := Coalesce(p.enderecoId, i.enderecoId))
  }

  /** Whether an update carries any column: a truthy name or email, or any other field. */
  predicate TemCampos(d: DadosInstituicao)
  {
    TruthyString(d.nome) || TruthyString(d.email) || d.cnpj.Some? || d.telefone.Some? ||
    d.linkSite.Some? || d.descricao.Some? || d.enderecoId.Some?
  }

  /** The row after the update rules, field by field: name and email only when truthy; the
      other fields when present, a falsy value becoming NULL; the rest untouched. The
      reference `PatchDeAplicado` checks the built `updateData` against. */
  function Atualizada(i: Instituicao, d: DadosInstituicao): Instituicao
  {
    i.(nome := if TruthyString(d.nome) then d.nome.value else i.nome,
       email := if TruthyString(d.email) then d.email.value else i.email,
       cnpj := if d.cnpj.Some? then StringOrNull(d.cnpj) else i.cnpj,
       telefone := if d.telefone.Some? then StringOrNull(d.telefone) else i.telefone,
       linkSite := if d.linkSite.Some? then StringOrNull(d.linkSite) else i.linkSite,
       descricao := if d.descricao.Some? then StringOrNull(d.descricao) else i.descricao,
       enderecoId := if d.enderecoId.Some? then IntOrNull(d.enderecoId) else i.enderecoId)
  }

  /** Email conflict of an update: a truthy email that another institution holds. */
  predicate ConflitoEmail(instituicoes: map<int, Instituicao>, id: int, dados: DadosInstituicao)
  {
    TruthyString(dados.email) && EmailEmUsoPorOutra(instituicoes, dados.email.value, id)
  }

  /** CNPJ conflict of an update: a truthy CNPJ that another institution holds. */
  predicate ConflitoCnpj(instituicoes: map<int, Instituicao>, id: int, dados: DadosInstituicao)
  {
    TruthyString(dados.cnpj) && CnpjEmUsoPorOutra(instituicoes, dados.cnpj.value, id)
  }

  /** The columns an update sets, as the field rules say. */
  function PatchDe(d: DadosInstituicao): InstituicaoPatch
  {
    InstituicaoPatch(
      if TruthyString(d.nome) then d.nome else None,
      if TruthyString(d.email) then d.email else None,
      if d.cnpj.Some? then Some(StringOrNull(d.cnpj)) else None,
      if d.telefone.Some? then Some(StringOrNull(d.telefone)) else None,
      if d.linkSite.Some? then Some(StringOrNull(d.linkSite)) else None,
      if d.descricao.Some? then Some(StringOrNull(d.descricao)) else None,
      if d.enderecoId.Some? then Some(IntOrNull(d.enderecoId)) else None)
  }

  /** Applying the columns of an update gives the row the field rules describe, and keeps
      the registration date. */
  lemma PatchDeAplicado(i: Instituicao, d: DadosInstituicao)
    ensures Aplicar(i, PatchDe(d)) == Atualizada(i, d)
    ensures Aplicar(i, PatchDe(d)).dataCadastro == i.dataCadastro
  {
  }

  /** An update sets no column exactly when it carries no applicable field. */
  lemma PatchVazioSemCampos(d: DadosInstituicao)
    ensures PatchDe(d) == PatchVazio <==> !TemCampos(d)
  {
  }

  /** The first half of `atualizarInstituicao`: builds `updateData` field by field, running
      the email check and then the CNPJ check on the way. */
  method MontarPatch(instituicoes: map<int, Instituicao>, id: int, dados: DadosInstituicao)
    returns (r: Result<InstituicaoPatch, Error>)
    ensures ConflitoEmail(instituicoes, id, dados) ==> r == Failure(EmailEmUsoInstituicao)
    ensures !ConflitoEmail(instituicoes, id, dados) && ConflitoCnpj(instituicoes, id, dados) ==>
      r == Failure(CnpjEmUsoInstituicao)
    ensures r.Success? <==> !ConflitoEmail(instituicoes, id, dados) && !ConflitoCnpj(instituicoes, id, dados)
    ensures r.Success? ==> r.value == PatchDe(dados)
  {
    var patch := PatchVazio;
    if TruthyString(dados.nome) {
      patch := patch.(nome := dados.nome);
    }
    if TruthyString(dados.email) {
      if EmailEmUsoPorOutra(instituicoes, dados.email.value, id) {
        return Failure(EmailEmUsoInstituicao);
      }
      patch := patch.(email := dados.email);
    }
    if dados.cnpj.Some? {
      if TruthyString(dados.cnpj) {
        if CnpjEmUsoPorOutra(instituicoes, dados.cnpj.value, id) {
          return Failure(CnpjEmUsoInstituicao);
        }
      }
      patch := patch.(cnpj := Some(StringOrNull(dados.cnpj)));
    }
    if dados.telefone.Some? {
      patch := patch.(telefone := Some(StringOrNull(dados.telefone)));
    }
    if dados.linkSite.Some? {
      patch := patch.(linkSite := Some(StringOrNull(dados.linkSite)));
    }
    if dados.descricao.Some? {
      patch := patch.(descricao := Some(StringOrNull(dados.descricao)));
    }
    if dados.enderecoId.Some? {
      patch := patch.(enderecoId := Some(IntOrNull(dados.enderecoId)));
    }
    return Success(patch);
  }

  /** Replacing one institution's row keeps the email and CNPJ unique when the new email and
      the new non-null CNPJ are either the row's own or held by no other institution. */
  lemma SubstituirPreservaUnicidade(instituicoes: map<int, Instituicao>, id: int, row: Instituicao)
    requires id in instituicoes
    requires InstituicaoEmailsUnique(instituicoes) && InstituicaoCnpjsUnique(instituicoes)
    requires row.email == instituicoes[id].email || !EmailEmUsoPorOutra(instituicoes, row.email, id)
    requires row.cnpj.None? || row.cnpj == instituicoes[id].cnpj || !CnpjEmUsoPorOutra(instituicoes, row.cnpj.value, id)
    ensures InstituicaoEmailsUnique(instituicoes[id := row]) && InstituicaoCnpjsUnique(instituicoes[id := row])
  {
    var t := instituicoes[id := row];
    forall a, b | a in t && b in t && a != b && t[a].cnpj.Some?
      ensures t[a].cnpj != t[b].cnpj
    {
      if a == id && row.cnpj != instituicoes[id].cnpj {
        assert !CnpjEmUsoPorOutra(instituicoes, row.cnpj.value, id);
        assert instituicoes[b].cnpj != Some(row.cnpj.value);
      }
      if b == id && row.cnpj != instituicoes[id].cnpj && row.cnpj.Some? {
        assert instituicoes[a].cnpj != Some(row.cnpj.value);
      }
    }
    forall a, b | a in t && b in t && a != b
      ensures t[a].email != t[b].email
    {
      if a == id && row.email != instituicoes[id].email {
        assert instituicoes[b].email != row.email;
      }
      if b == id && row.email != instituicoes[id].email {
        assert instituicoes[a].email != row.email;
      }
    }
  }

  /** `atualizarInstituicao`: rejects an email, then a truthy CNPJ, held by another
      institution (its own current values are allowed); answers false, writing nothing, when
      no column applies, and otherwise whether the institution exists. */
  method AtualizarInstituicao(db: Db, id: int, dados: DadosInstituicao) returns (r: Result<bool, Error>)
    requires db.Valid()
    modifies db`instituicoes
    ensures db.Valid()
    ensures ConflitoEmail(old(db.instituicoes), id, dados) ==> r == Failure(EmailEmUsoInstituicao)
    ensures !ConflitoEmail(old(db.instituicoes), id, dados) && ConflitoCnpj(old(db.instituicoes), id, dados) ==>
      r == Failure(CnpjEmUsoInstituicao)
    ensures r.Failure? ==> db.instituicoes == old(db.instituicoes)
    ensures !TemCampos(dados) ==> r == Success(false)
    ensures r.Success? ==> (r.value <==> TemCampos(dados) && id in old(db.instituicoes))
    ensures r.Success? && r.value ==>
      db.instituicoes == old(db.instituicoes)[id := Atualizada(old(db.instituicoes)[id], dados)]
    ensures r.Success? && !r.value ==> db.instituicoes == old(db.instituicoes)
  {
    var patch := MontarPatch(db.instituicoes, id, dados);
    if patch.Failure? {
      return Failure(patch.error);
    }
    PatchVazioSemCampos(dados);
    if patch.value == PatchVazio {
      return Success(false);
    }
    if id !in db.instituicoes {
      return Success(false);
    }
    PatchDeAplicado(db.instituicoes[id], dados);
    var row := Aplicar(db.instituicoes[id], patch.value);
    SubstituirPreservaUnicidade(db.instituicoes, id, row);
    db.instituicoes := db.instituicoes[id := row];
    return Success(true);
  }

  /** `deletarInstituicao`: removes the institution; answers whether a row was removed. */
  method DeletarInstituicao(db: Db, id: int) returns (deleted: bool)
    requires db.Valid()
    modifies db`instituicoes
    ensures db.Valid()
    ensures deleted <==> id in old(db.instituicoes)
    ensures db.instituicoes == old(db.instituicoes) - {id}
  {
    deleted := id in db.instituicoes;
    db.instituicoes := db.instituicoes - {id};
  }
}
