/** The rows of the store's tables, the records the business layer returns, and the
    errors it throws. Nullable columns are `Option`s; ids are the tables' serial keys. */
module Rows {
  import opened Common

  /** SWIPES.tipo. */
  datatype Tipo = Like | Pass

  /** MATCHES.status. */
  datatype MatchStatus = Ativo | Conversando | Adotado | Cancelado

  /** A SWIPES row: a like or pass on a pet by a user (`usuarioId`) or by an institution
      (`instituicaoId`); both columns are nullable in the table. */
  datatype Swipe = Swipe(
    id: int,
    usuarioId: Option<int>,
    instituicaoId: Option<int>,
    petId: int,
    tipo: Tipo,
    dataSwipe: Timestamp)

  /** A MATCHES row. */
  datatype MatchRow = MatchRow(
    id: int,
    usuarioId: int,
    instituicaoId: int,
    petId: int,
    status: MatchStatus,
    dataMatch: Timestamp,
    ultimaInteracao: Timestamp)

  /** A USUARIOS row. */
  datatype Usuario = Usuario(
    nome: string,
    email: string,
    senhaHash: string,
    telefone: Option<string>,
    enderecoId: Option<int>,
    dataCadastro: Timestamp,
    ativo: bool)

  /** An INSTITUICOES row. */
  datatype Instituicao = Instituicao(
    nome: string,
    cnpj: Option<string>,
    email: string,
    telefone: Option<string>,
    linkSite: Option<string>,
    descricao: Option<string>,
    enderecoId: Option<int>,
    dataCadastro: Timestamp)

  /** An ENDERECOS row. */
  datatype Endereco = Endereco(
    rua: string,
    numero: Option<string>,
    complemento: Option<string>,
    bairro: string,
    cidade: string,
    estado: string,
    cep: Option<string>,
    latitude: Option<Decimal>,
    longitude: Option<Decimal>)

  /** A PETS row. */
  datatype Pet = Pet(
    nome: string,
    especie: string,
    raca: Option<string>,
    sexo: string,
    idadeAproximada: Option<string>,
    porte: Option<string>,
    cor: Option<string>,
    vacinado: bool,
    castrado: bool,
    descricaoSaude: Option<string>,
    historia: Option<string>,
    instituicaoId: int,
    statusAdocao: string,
    ativo: bool,
    dataCadastro: Timestamp)

  /** A PROCESSO_ADOCAO row. */
  datatype Adocao = Adocao(
    petId: int,
    usuarioId: int,
    instituicaoId: int,
    dataSolicitacao: Timestamp,
    status: string)

  /** A TIPOS_DOACAO row. */
  datatype TipoDoacao = TipoDoacao(nomeTipo: string, unidadeMedida: Option<string>)

  /** A DOACOES row. */
  datatype Doacao = Doacao(
    usuarioId: int,
    instituicaoId: int,
    tipoDoacaoId: int,
    quantidade: Decimal,
    dataDoacao: Timestamp,
    statusEntrega: string)

  /** A REPORTES_RESGATE row (the reporter column is never filled by the business layer). */
  datatype Resgate = Resgate(
    usuarioReporterId: Option<int>,
    dataHoraReporte: Timestamp,
    descricaoLocal: string,
    condicaoAnimal: string)

  /** What a swipe answers: whether it completed a match, the match id, and a message. */
  datatype SwipeResponse = SwipeResponse(matched: bool, matchId: Option<int>, message: string)

  /** A match row with the display columns of its outer joins (`None` when the joined row is missing). */
  datatype MatchDetalhado = MatchDetalhado(
    id: int,
    usuarioId: int,
    usuarioNome: Option<string>,
    usuarioEmail: Option<string>,
    instituicaoId: int,
    instituicaoNome: Option<string>,
    petId: int,
    petNome: Option<string>,
    petEspecie: Option<string>,
    petRaca: Option<string>,
    petCor: Option<string>,
    status: MatchStatus,
    dataMatch: Timestamp,
    ultimaInteracao: Timestamp)

  /** A pet as the discovery feed shows it. */
  datatype PetPerfil = PetPerfil(
    id: int,
    nome: string,
    especie: string,
    raca: Option<string>,
    sexo: string,
    idadeAproximada: Option<string>,
    porte: Option<string>,
    cor: Option<string>,
    vacinado: bool,
    castrado: bool,
    descricaoSaude: Option<string>,
    historia: Option<string>,
    instituicaoId: int,
    instituicaoNome: Option<string>,
    dataCadastro: Timestamp)

  /** A user as an institution's discovery feed shows it. */
  datatype UsuarioPerfil = UsuarioPerfil(
    id: int,
    nome: string,
    email: string,
    telefone: Option<string>,
    dataCadastro: Timestamp,
    totalAdocoes: nat)

  /** The public view of a user: never the password hash. */
  datatype UsuarioResponse = UsuarioResponse(id: int, name: string, email: string)

  /** What a successful login returns; the token comes from the token collaborator. */
  datatype LoginResponse = LoginResponse(token: string, user: UsuarioResponse)

  /** An institution as returned to callers. */
  datatype InstituicaoResponse = InstituicaoResponse(
    id: int,
    nome: string,
    cnpj: Option<string>,
    email: string,
    telefone: Option<string>,
    linkSite: Option<string>,
    descricao: Option<string>,
    enderecoId: Option<int>,
    dataCadastro: Option<Timestamp>)

  /** An address as returned to callers. */
  datatype EnderecoResponse = EnderecoResponse(
    id: int,
    rua: string,
    numero: Option<string>,
    complemento: Option<string>,
    bairro: string,
    cidade: string,
    estado: string,
    cep: Option<string>,
    latitude: Option<Decimal>,
    longitude: Option<Decimal>)

  /** A pet as the pet endpoints return it (English field names, `cor` and
      `dataCadastro` absent when the creating call did not supply them). */
  datatype PetResponse = PetResponse(
    id: int,
    name: string,
    petType: string,
    ownerId: int,
    vacinado: bool,
    castrado: bool,
    cor: Option<string>,
    dataCadastro: Option<Timestamp>,
    ativo: bool)

  /** A donation as returned after it is registered. */
  datatype DoacaoResponse = DoacaoResponse(
    id: int,
    usuarioId: int,
    instituicaoId: int,
    tipoDoacaoId: int,
    quantidade: Decimal,
    dataDoacao: Timestamp,
    statusEntrega: string)

  /** The errors the business layer throws, one per message. */
  datatype Error =
    | PetNaoEncontrado            // "Pet não encontrado"
    | PetIndisponivel             // "Pet não está disponível para adoção"
    | PetJaAvaliado               // "Você já avaliou este pet"
    | PetNaoPertence              // "Pet não encontrado ou não pertence a esta instituição"
    | UsuarioJaAvaliado           // "Você já avaliou este usuário para este pet"
    | ErroCriarMatch              // the MATCHES insert violated the (usuario_id, pet_id) unique constraint
    | EmailJaCadastrado           // "Email já cadastrado"
    | CnpjJaCadastrado            // "CNPJ já cadastrado"
    | EmailEmUsoInstituicao       // "Email já está em uso por outra instituição"
    | CnpjEmUsoInstituicao        // "CNPJ já está em uso por outra instituição"
    | EmailEmUsoUsuario           // "Email já está em uso por outro usuário"
    | CredenciaisInvalidas        // "Credenciais inválidas"
    | EnderecoEmUso               // "Endereço não pode ser deletado pois está em uso"
    | UsuarioNaoEncontrado        // "Usuário não encontrado"
    | InstituicaoNaoEncontrada    // "Instituição não encontrada"
    | TipoDoacaoNaoEncontrado     // "Tipo de doação não encontrado"
}
