/** Addresses: listing, creation with falsy optional fields stored as NULL, lookup,
    field-wise update, and removal guarded against addresses still in use. */
module EnderecoBusiness {
  import opened Common
  import opened Seqs
  import opened Rows
  import opened Store

  /** An address row as returned to callers. */
  function Resposta(id: int, e: Endereco): EnderecoResponse
  {
    EnderecoResponse(id, e.rua, e.numero, e.complemento, e.bairro, e.cidade, e.estado, e.cep, e.latitude, e.longitude)
  }

  /** `listarEnderecos`: every address, once, in the order the store returned them. */
  function ListarEnderecos(enderecos: map<int, Endereco>, order: seq<int>): (r: seq<EnderecoResponse>)
    requires Enumerates(order, enderecos.Keys)
    ensures |r| == |enderecos|
    ensures forall k :: 0 <= k < |r| ==> r[k].id in enderecos && r[k] == Resposta(r[k].id, enderecos[r[k].id])
    ensures forall id :: id in enderecos ==> exists k :: 0 <= k < |r| && r[k].id == id
  {
    DistinctEnumerationHasSize(order, enderecos.Keys);
    assert forall k :: 0 <= k < |order| ==> order[k] in order;
    var r := seq(|order|, k requires 0 <= k < |order| => Resposta(order[k], enderecos[order[k]]));
    assert forall id :: id in enderecos ==> exists k :: 0 <= k < |r| && r[k].id == id by {
      forall id | id in enderecos ensures exists k :: 0 <= k < |r| && r[k].id == id {
        var k :| 0 <= k < |order| && order[k] == id;
        assert r[k].id == id;
      }
    }
    r
  }

  /** The values a creation supplies; `None` is an absent field. */
  datatype NovoEndereco = NovoEndereco(
    rua: string,
    numero: Option<string>,
    complemento: Option<string>,
    bairro: string,
    cidade: string,
    estado: string,
    cep: Option<string>,
    latitude: Option<Decimal>,
    longitude: Option<Decimal>)

  /** The row a creation stores: falsy optional fields become NULL. */
  function LinhaNova(d: NovoEndereco): (row: Endereco)
    ensures row.rua == d.rua && row.bairro == d.bairro && row.cidade == d.cidade && row.estado == d.estado
    ensures row.numero.Some? <==> TruthyString(d.numero)
    ensures row.complemento.Some? <==> TruthyString(d.complemento)
    ensures row.cep.Some? <==> TruthyString(d.cep)
    ensures row.latitude.Some? <==> TruthyDecimal(d.latitude)
    ensures row.longitude.Some? <==> TruthyDecimal(d.longitude)
    ensures row.numero.Some? ==> row.numero == d.numero
    ensures row.complemento.Some? ==> row.complemento == d.complemento
    ensures row.cep.Some? ==> row.cep == d.cep
    ensures row.latitude.Some? ==> row.latitude == d.latitude
    ensures row.longitude.Some? ==> row.longitude == d.longitude
  {
    Endereco(d.rua, StringOrNull(d.numero), StringOrNull(d.complemento), d.bairro, d.cidade, d.estado,
             StringOrNull(d.cep), DecimalOrNull(d.latitude), DecimalOrNull(d.longitude))
  }

  /** `criarEndereco`: inserts one row under a fresh id, reads it back and returns it. The
      two-letter state is the caller's validation. */
  method CriarEndereco(db: Db, dados: NovoEndereco) returns (r: EnderecoResponse)
    requires db.Valid()
    requires |dados.estado| == 2
    modifies db`enderecos, db`nextEnderecoId
    ensures db.Valid()
    ensures old(db.nextEnderecoId) !in old(db.enderecos)
    ensures db.enderecos == old(db.enderecos)[old(db.nextEnderecoId) := LinhaNova(dados)]
    ensures db.nextEnderecoId == old(db.nextEnderecoId) + 1
    ensures r == Resposta(old(db.nextEnderecoId), LinhaNova(dados))
  {
    var id := db.nextEnderecoId;
    db.enderecos := db.enderecos[id := LinhaNova(dados)];
    db.nextEnderecoId := id + 1;
    var criado := db.enderecos[id];
    r := Resposta(id, criado);
  }

  /** `buscarEnderecoPorId`: the address, or nothing for an unknown id. */
  function BuscarEnderecoPorId(enderecos: map<int, Endereco>, id: int): (r: Option<EnderecoResponse>)
    ensures r.None? <==> id !in enderecos
    ensures r.Some? ==> r.value.id == id && r.value == Resposta(id, enderecos[id])
  {
    if id in enderecos then Some(Resposta(id, enderecos[id])) else None
  }

  /** The values an update supplies; `None` is an absent field. */
  datatype DadosEndereco = DadosEndereco(
    rua: Option<string>,
    numero: Option<string>,
    complemento: Option<string>,
    bairro: Option<string>,
    cidade: Option<string>,
    estado: Option<string>,
    cep: Option<string>,
    latitude: Option<Decimal>,
    longitude: Option<Decimal>)

  /** The `updateData` object: `Some(v)` sets the column to `v`. */
  datatype EnderecoPatch = EnderecoPatch(
    rua: Option<string>,
    numero: Option<Option<string>>,
    complemento: Option<Option<string>>,
    bairro: Option<string>,
    cidade: Option<string>,
    estado: Option<string>,
    cep: Option<Option<string>>,
    latitude: Option<Option<Decimal>>,
    longitude: Option<Option<Decimal>>)

  const PatchVazio := EnderecoPatch(None, None, None, None, None, None, None, None, None)

  function Aplicar(e: Endereco, p: EnderecoPatch): Endereco
  {
    Endereco(Coalesce(p.rua, e.rua), Coalesce(p.numero, e.numero), Coalesce(p.complemento, e.complemento),
             Coalesce(p.bairro, e.bairro), Coalesce(p.cidade, e.cidade), Coalesce(p.estado, e.estado),
             Coalesce(p.cep, e.cep), Coalesce(p.latitude, e.latitude), Coalesce(p.longitude, e.longitude))
  }

  /** Whether an update carries any column: a truthy street, district, city or state, or
      any optional field. */
  predicate TemCampos(d: DadosEndereco)
  {
    TruthyString(d.rua) || d.numero.Some? || d.complemento.Some? || TruthyString(d.bairro) ||
    TruthyString(d.cidade) || TruthyString(d.estado) || d.cep.Some? || d.latitude.Some? || d.longitude.Some?
  }

  /** The row after the update rules: street, district, city and state only when truthy;
      the optional fields when present, a falsy value becoming NULL. */
  function Atualizado(e: Endereco, d: DadosEndereco): Endereco
  {
    Endereco(
      if TruthyString(d.rua) then d.rua.value else e.rua,
      if d.numero.Some? then StringOrNull(d.numero) else e.numero,
      if d.complemento.Some? then StringOrNull(d.complemento) else e.complemento,
      if TruthyString(d.bairro) then d.bairro.value else e.bairro,
      if TruthyString(d.cidade) then d.cidade.value else e.cidade,
      if TruthyString(d.estado) then d.estado.value else e.estado,
      if d.cep.Some? then StringOrNull(d.cep) else e.cep,
      if d.latitude.Some? then DecimalOrNull(d.latitude) else e.latitude,
      if d.longitude.Some? then DecimalOrNull(d.longitude) else e.longitude)
  }

  /** The columns an update sets. */
  function PatchDe(d: DadosEndereco): EnderecoPatch
  {
    EnderecoPatch(
      if TruthyString(d.rua) then d.rua else None,
      if d.numero.Some? then Some(StringOrNull(d.numero)) else None,
      if d.complemento.Some? then Some(StringOrNull(d.complemento)) else None,
      if TruthyString(d.bairro) then d.bairro else None,
      if TruthyString(d.cidade) then d.cidade else None,
      if TruthyString(d.estado) then d.estado else None,
      if d.cep.Some? then Some(StringOrNull(d.cep)) else None,
      if d.latitude.Some? then Some(DecimalOrNull(d.latitude)) else None,
      if d.longitude.Some? then Some(DecimalOrNull(d.longitude)) else None)
  }

  /** Applying the columns of an update gives the row the field rules describe. */
  lemma PatchDeAplicado(e: Endereco, d: DadosEndereco)
    ensures Aplicar(e, PatchDe(d)) == Atualizado(e, d)
  {
  }

  /** An update sets no column exactly when it carries no applicable field. */
  lemma PatchVazioSemCampos(d: DadosEndereco)
    ensures PatchDe(d) == PatchVazio <==> !TemCampos(d)
  {
  }

  /** The first half of `atualizarEndereco`: builds `updateData` field by field. */
  method MontarPatch(d: DadosEndereco) returns (p: EnderecoPatch)
    ensures p == PatchDe(d)
  {
    p := PatchVazio;
    if TruthyString(d.rua) { p := p.(rua := d.rua); }
    if d.numero.Some? { p := p.(numero := Some(StringOrNull(d.numero))); }
    if d.complemento.Some? { p := p.(complemento := Some(StringOrNull(d.complemento))); }
    if TruthyString(d.bairro) { p := p.(bairro := d.bairro); }
    if TruthyString(d.cidade) { p := p.(cidade := d.cidade); }
    if TruthyString(d.estado) { p := p.(estado := d.estado); }
    if d.cep.Some? { p := p.(cep := Some(StringOrNull(d.cep))); }
    if d.latitude.Some? { p := p.(latitude := Some(DecimalOrNull(d.latitude))); }
    if d.longitude.Some? { p := p.(longitude := Some(DecimalOrNull(d.longitude))); }
  }

  /** `atualizarEndereco`: answers false, writing nothing, when no column applies, and
      otherwise whether the address exists, which then holds the updated row. A truthy state
      has two letters (the caller's validation). */
  method AtualizarEndereco(db: Db, id: int, dados: DadosEndereco) returns (updated: bool)
    requires db.Valid()
    requires TruthyString(dados.estado) ==> |dados.estado.value| == 2
    modifies db`enderecos
    ensures db.Valid()
    ensures updated <==> TemCampos(dados) && id in old(db.enderecos)
    ensures updated ==> db.enderecos == old(db.enderecos)[id := Atualizado(old(db.enderecos)[id], dados)]
    ensures !updated ==> db.enderecos == old(db.enderecos)
  {
    var patch := MontarPatch(dados);
    PatchVazioSemCampos(dados);
    if patch == PatchVazio {
      return false;
    }
    if id !in db.enderecos {
      return false;
    }
    PatchDeAplicado(db.enderecos[id], dados);
    db.enderecos := db.enderecos[id := Aplicar(db.enderecos[id], patch)];
    return true;
  }

  /** Some user or institution references the address. */
  predicate EmUso(usuarios: map<int, Usuario>, instituicoes: map<int, Instituicao>, id: int)
  {
    (exists u | u in usuarios :: usuarios[u].enderecoId == Some(id)) ||
    (exists i | i in instituicoes :: instituicoes[i].enderecoId == Some(id))
  }

  /** Every address a user or an institution names exists. */
  ghost predicate ReferenciasValidas(
    usuarios: map<int, Usuario>, instituicoes: map<int, Instituicao>, enderecos: map<int, Endereco>)
  {
    && (forall u :: u in usuarios && usuarios[u].enderecoId.Some? ==> usuarios[u].enderecoId.value in enderecos)
    && (forall i :: i in instituicoes && instituicoes[i].enderecoId.Some? ==> instituicoes[i].enderecoId.value in enderecos)
  }

  /** `deletarEndereco`: refuses, removing nothing, an address some user or institution
      references; otherwise removes it and answers whether a row was removed. */
  method DeletarEndereco(db: Db, id: int) returns (r: Result<bool, Error>)
    requires db.Valid()
    modifies db`enderecos
    ensures db.Valid()
    ensures EmUso(db.usuarios, db.instituicoes, id) ==> r == Failure(EnderecoEmUso) && db.enderecos == old(db.enderecos)
    ensures !EmUso(db.usuarios, db.instituicoes, id) ==>
      r == Success(id in old(db.enderecos)) && db.enderecos == old(db.enderecos) - {id}
    ensures ReferenciasValidas(db.usuarios, db.instituicoes, old(db.enderecos)) ==>
      ReferenciasValidas(db.usuarios, db.instituicoes, db.enderecos)
  {
    var usuarioComEndereco := exists u | u in db.usuarios :: db.usuarios[u].enderecoId == Some(id);
    var instituicaoComEndereco := exists i | i in db.instituicoes :: db.instituicoes[i].enderecoId == Some(id);
    if usuarioComEndereco || instituicaoComEndereco {
      return Failure(EnderecoEmUso);
    }
    var deleted := id in db.enderecos;
    db.enderecos := db.enderecos - {id};
    return Success(deleted);
  }
}
