/** Users: sign-up with a unique email, login, lookup, field-wise update and removal.
    Password hashing, hash comparison and token signing are collaborators passed in as
    functions. */
module UsuarioBusiness {
  import opened Common
  import opened Rows
  import opened Store

  /** Some user has this email (`USUARIOS WHERE email = ?`). */
  predicate EmailEmUso(usuarios: map<int, Usuario>, email: string)
  {
    exists id | id in usuarios :: usuarios[id].email == email
  }

  /** Some user other than `self` has this email (`... AND id <> self`). */
  predicate EmailEmUsoPorOutro(usuarios: map<int, Usuario>, email: string, self: int)
  {
    exists id | id in usuarios :: id != self && usuarios[id].email == email
  }

  /** The public view of a user row: id, name and email, never the hash. */
  function Resposta(id: int, u: Usuario): UsuarioResponse
  {
    UsuarioResponse(id, u.nome, u.email)
  }

  /** `criarUsuario`: rejects an email already registered, before hashing; otherwise stores
      the name, the email and the hash of the password under a fresh id. */
  method CriarUsuario(db: Db, name: string, email: string, password: string, hash: string -> string, now: Timestamp)
    returns (r: Result<UsuarioResponse, Error>)
    requires db.Valid()
    modifies db`usuarios, db`nextUsuarioId
    ensures db.Valid()
    ensures EmailEmUso(old(db.usuarios), email) ==>
      r == Failure(EmailJaCadastrado) && db.usuarios == old(db.usuarios) && db.nextUsuarioId == old(db.nextUsuarioId)
    ensures !EmailEmUso(old(db.usuarios), email) ==>
      && r == Success(UsuarioResponse(old(db.nextUsuarioId), name, email))
      && old(db.nextUsuarioId) !in old(db.usuarios)
      && db.usuarios == old(db.usuarios)[old(db.nextUsuarioId) := Usuario(name, email, hash(password), None, None, now, true)]
      && db.nextUsuarioId == old(db.nextUsuarioId) + 1
  {
    if EmailEmUso(db.usuarios, email) {
      return Failure(EmailJaCadastrado);
    }
    var senhaHash := hash(password);
    var id := db.nextUsuarioId;
    db.usuarios := db.usuarios[id := Usuario(name, email, senhaHash, None, None, now, true)];
    db.nextUsuarioId := id + 1;
    return Success(UsuarioResponse(id, name, email));
  }

  /** `login`: the same error for an unknown email and for a wrong password; on success a
      token signed over the user's id and email, and the user's public view. */
  function Login(
    usuarios: map<int, Usuario>, email: string, password: string,
    verify: (string, string) -> bool, sign: (int, string) -> string): (r: Result<LoginResponse, Error>)
    requires UsuarioEmailsUnique(usuarios)
    ensures r.Failure? ==> r.error == CredenciaisInvalidas
    ensures r.Failure? <==>
      forall id :: id in usuarios && usuarios[id].email == email ==> !verify(password, usuarios[id].senhaHash)
    ensures r.Success? ==>
      (exists id :: id in usuarios && usuarios[id].email == email && verify(password, usuarios[id].senhaHash) &&
                    r.value == LoginResponse(sign(id, email), Resposta(id, usuarios[id])))
  {
    if !EmailEmUso(usuarios, email) then Failure(CredenciaisInvalidas)
    else
      var id :| id in usuarios && usuarios[id].email == email;
      if !verify(password, usuarios[id].senhaHash) then Failure(CredenciaisInvalidas)
      else Success(LoginResponse(sign(id, usuarios[id].email), Resposta(id, usuarios[id])))
  }

  /** `buscarUsuarioPorId`: the user's public view, or nothing for an unknown id. */
  function BuscarUsuarioPorId(usuarios: map<int, Usuario>, id: int): (r: Option<UsuarioResponse>)
    ensures r.None? <==> id !in usuarios
    ensures r.Some? ==> r.value.id == id && r.value.name == usuarios[id].nome && r.value.email == usuarios[id].email
  {
    if id in usuarios then Some(Resposta(id, usuarios[id])) else None
  }

  /** The `updateData` object of `atualizarUsuario`: the columns to set. */
  datatype UsuarioPatch = UsuarioPatch(nome: Option<string>, email: Option<string>)

  function Aplicar(u: Usuario, p: UsuarioPatch): Usuario
  {
    u.(nome := Coalesce(p.nome, u.nome), email := Coalesce(p.email, u.email))
  }

  /** `atualizarUsuario`: sets the name and the email when they are truthy; rejects an email
      that another user holds; answers false, writing nothing, when neither is set, and
      otherwise whether the user exists. */
  method AtualizarUsuario(db: Db, id: int, name: Option<string>, email: Option<string>)
    returns (r: Result<bool, Error>)
    requires db.Valid()
    modifies db`usuarios
    ensures db.Valid()
    ensures TruthyString(email) && EmailEmUsoPorOutro(old(db.usuarios), email.value, id) ==>
      r == Failure(EmailEmUsoUsuario)
    ensures r.Failure? ==> r.error == EmailEmUsoUsuario && db.usuarios == old(db.usuarios)
    ensures !TruthyString(name) && !TruthyString(email) ==> r == Success(false) && db.usuarios == old(db.usuarios)
    ensures r.Success? ==> (r.value <==> id in old(db.usuarios) && (TruthyString(name) || TruthyString(email)))
    ensures r.Success? && r.value ==>
      db.usuarios == old(db.usuarios)[id := old(db.usuarios)[id].(
        nome := if TruthyString(name) then name.value else old(db.usuarios)[id].nome,
        email := if TruthyString(email) then email.value else old(db.usuarios)[id].email)]
    ensures r.Success? && !r.value ==> db.usuarios == old(db.usuarios)
  {
    var patch := UsuarioPatch(None, None);
    if TruthyString(name) {
      patch := patch.(nome := name);
    }
    if TruthyString(email) {
      if EmailEmUsoPorOutro(db.usuarios, email.value, id) {
        return Failure(EmailEmUsoUsuario);
      }
      patch := patch.(email := email);
    }
    if patch == UsuarioPatch(None, None) {
      return Success(false);
    }
    if id !in db.usuarios {
      return Success(false);
    }
    db.usuarios := db.usuarios[id := Aplicar(db.usuarios[id], patch)];
    return Success(true);
  }

  /** `deletarUsuario`: removes the user; answers whether a row was removed. */
  method DeletarUsuario(db: Db, id: int) returns (deleted: bool)
    requires db.Valid()
    modifies db`usuarios
    ensures db.Valid()
    ensures deleted <==> id in old(db.usuarios)
    ensures db.usuarios == old(db.usuarios) - {id}
  {
    deleted := id in db.usuarios;
    db.usuarios := db.usuarios - {id};
  }

  /** A user who signs up can then log in with the same email and password, given a hash
      collaborator whose verifier accepts every password against its own hash; the login
      answers with the new user's public view. */
  method CadastroEntaoLogin(
    db: Db, name: string, email: string, password: string, now: Timestamp,
    hash: string -> string, verify: (string, string) -> bool, sign: (int, string) -> string)
    returns (criado: Result<UsuarioResponse, Error>, sessao: Result<LoginResponse, Error>)
    requires db.Valid()
    requires !EmailEmUso(db.usuarios, email)
    requires forall p :: verify(p, hash(p))
    modifies db`usuarios, db`nextUsuarioId
    ensures criado.Success?
    ensures sessao.Success? && sessao.value.user == criado.value
  {
    criado := CriarUsuario(db, name, email, password, hash, now);
    var id := criado.value.id;
    assert db.usuarios[id].email == email && verify(password, db.usuarios[id].senhaHash);
    sessao := Login(db.usuarios, email, password, verify, sign);
  }
}
