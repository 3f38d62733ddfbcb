# Pets API business layer in Dafny

This project models the business layer of the Pets API, a back end for an animal-adoption
platform. Users register and log in. Institutions (shelters) register, list pets and receive
donations. Anyone can report an animal that needs rescue.

The centre of the model is the swipe-and-match engine of `matchBusiness.ts`:

- A user gets a discovery feed of pets that are open for adoption and that the user has not yet
  judged.
- An institution gets, for one of its pets, a feed of active users who liked that pet.
- Each side records a like or a pass in the SWIPES ledger.
- When the user and the pet's owning institution have both liked the pet, a row with status
  `"ativo"` is added to MATCHES.
- Active matches are listed, most recent interaction first. A match can be looked up within a
  caller's scope, and its status can be changed.

The other business files are modelled too: users, institutions, addresses, pets, adoption
requests, donations and rescue reports.

## How the model is built

- **The store.** The relational store is one class, `Store.Db`:
  - one field per table: maps keyed by the serial id, and sequences for SWIPES and MATCHES;
  - one serial counter per table;
  - `Valid()`, which holds the serial-key facts, the email and CNPJ unique constraints and the
    ledger invariants (`Ledger.LedgerInvariant`).
- **Operations that write** are methods on a `Db`. Each names exactly the fields it may change,
  so "nothing else changes" is part of every contract. Operations that only read are functions
  over the table values.
- **Ledger invariants.** The matching engine keeps these:
  - every swipe row names exactly one party;
  - a user judges a pet at most once;
  - an institution judges a pet at most once, whatever user it was looking at;
  - every match is backed by a like of its user and a like of its institution;
  - (user, pet) is unique in MATCHES;
  - match ids are fresh.
- **What is proved about the engine:**
  - both swipes keep these invariants;
  - the MATCHES unique constraint never refuses the match a user swipe creates;
  - it refuses an institution swipe's match only after some pet has changed owner. This is the
    only operation that breaks `Store.Db.OwnersCurrent`, and `Ledger.OwnerChangeAllowsConflict`
    exhibits the situation.
- **Institution swipes.** An institution swipe records only the institution and the pet. So an
  institution judges a pet once in total, and its one like makes a match with every user who
  likes the pet later (`MatchBusiness.LikeDaInstituicaoValeParaTodos`). This is the documented
  behaviour of the system and is modelled as written.
- **JavaScript value rules** are written out explicitly:
  - `x || null`, `x || "default"`, `x ?? default` and `if (x)` each have their own function or
    predicate;
  - an absent field is `None`;
  - an empty string or a zero is present but falsy.
- **Things outside the business layer become parameters:**
  - the clock becomes `now`;
  - `ORDER BY RANDOM()` becomes an `order` parameter that lists a table's ids once each;
  - password hashing, hash comparison and token signing become function parameters.

## Model

| member | source | states |
|---|---|---|
| Store.Db.constructor | src/database/migrations/20251125200938_create_matches_tables.ts:3-30 | an empty store satisfies the serial-key, unique-constraint and ledger invariants and the current-owner invariant |
| Store.Db.InsertSwipe | src/database/migrations/20251125200938_create_matches_tables.ts:5-14 | appends the swipe row under the next serial id and advances the counter; the store stays valid and matches keep naming current owners |
| Store.Db.InsertMatch | src/database/migrations/20251125200938_create_matches_tables.ts:17-29 | the (usuario_id, pet_id) unique constraint: an existing pair writes nothing and yields no id; otherwise the `"ativo"` row is appended under the next id, stamped with `now` as match and interaction time |
| Store.Db.UpdateMatches | src/business/matchBusiness.ts:388-391 | an update that keeps every row's id and parties keeps the store valid and the current-owner invariant |
| Ledger.AppendedSwipeIsRecorded | src/business/matchBusiness.ts:138-152 | after a swipe is appended, its party has judged its pet, and liked it when the swipe is a like |
| Ledger.AppendKeepsLikes | src/business/matchBusiness.ts:145-152 | appending a swipe never loses a like, and adds no like or user swipe for a party the new row does not name |
| Ledger.AppendUserSwipeKeepsInvariants | src/business/matchBusiness.ts:130-142 | a user swipe on a pet the user has not judged keeps every ledger invariant |
| Ledger.AppendInstitutionSwipeKeepsInvariants | src/business/matchBusiness.ts:186-199 | an institution swipe on a pet it has not judged keeps every ledger invariant |
| Ledger.UnjudgedPetHasNoMatch | src/business/matchBusiness.ts:130-160 | a user who has not judged a pet has no match on it, so the match a user swipe creates never hits the unique constraint |
| Ledger.OwnerUnjudgedPetHasNoMatch | src/business/matchBusiness.ts:186-217 | while matches name current owners, a pet its owner has not judged has no match with any user |
| Ledger.OwnerChangeAllowsConflict | src/business/petBusiness.ts:82-93 | counterexample: after a pet moves to another institution, its new owner has not judged it, yet a match on it exists |
| Ledger.AppendMatchKeepsInvariants | src/business/matchBusiness.ts:155-160 | a match on a fresh (user, pet) pair, backed by both likes, with the next id, keeps every ledger invariant |
| Ledger.SamePartiesKeepInvariants | src/business/matchBusiness.ts:378-394 | changing only the status and interaction time of match rows keeps the ledger invariants and the current-owner invariant |
| Ledger.AppendMatchKeepsOwners | src/business/matchBusiness.ts:155-160 | a new match naming its pet's current owner keeps the current-owner invariant |
| MatchBusiness.SwipedPetIds | src/business/matchBusiness.ts:8-12 | a pet id is in the set exactly when the user has a swipe on it |
| MatchBusiness.PetsVistos | src/business/matchBusiness.ts:12-18 | the exclusion list holds every pet the user judged, and nothing else but the placeholder 0 |
| MatchBusiness.IdsPetsElegiveis | src/business/matchBusiness.ts:14-27 | at most `limite` distinct ids, each an available, active pet the user neither judged nor actively matched; when fewer than `limite`, every such pet (id 0 aside) is included |
| MatchBusiness.PerfisPets | src/business/matchBusiness.ts:46-62 | one profile per id, in order, each the pet's profile with its institution's name from the outer join |
| MatchBusiness.DescobrirPets | src/business/matchBusiness.ts:7-63 | the pet feed: bounded by `limite`, duplicate-free, only eligible pets with their profiles, and complete when under the limit |
| MatchBusiness.UsuariosComLike | src/business/matchBusiness.ts:71-85 | a user is a candidate exactly when the user liked the pet and has no active match on it |
| MatchBusiness.IdsUsuariosElegiveis | src/business/matchBusiness.ts:91-100 | at most `limite` distinct candidate ids of active users; when fewer than `limite`, all of them |
| MatchBusiness.PerfisUsuarios | src/business/matchBusiness.ts:110-117 | one profile per id, in order, each carrying the user's count of approved adoptions |
| MatchBusiness.DescobrirUsuarios | src/business/matchBusiness.ts:65-118 | empty unless the pet is the institution's and someone liked it; otherwise bounded, duplicate-free, only active users who liked the pet without an active match, complete when under the limit |
| MatchBusiness.InserirPorInteracao | src/business/matchBusiness.ts:244 | inserting into a list ordered by last interaction (descending) keeps it ordered and adds exactly the new row's value |
| MatchBusiness.InserirPermuta | src/business/matchBusiness.ts:244 | insertion adds the row once: the result is a permutation of the list plus the row |
| MatchBusiness.OrdenarPorInteracao | src/business/matchBusiness.ts:244 | the result is ordered by last interaction, descending, and is a permutation of the input |
| MatchBusiness.DetalharTodos | src/business/matchBusiness.ts:262-277 | one detailed row per match row, position by position, with the outer-join display columns |
| MatchBusiness.DetalharMantemOrdem | src/business/matchBusiness.ts:244-277 | detailing row by row keeps the order by last interaction |
| MatchBusiness.AtivosDe | src/business/matchBusiness.ts:242-243 | a row is selected exactly when it is the party's and `"ativo"`; a table without repeated rows gives a selection without repeats |
| MatchBusiness.AtivosPorInteracao | src/business/matchBusiness.ts:238-244 | a permutation of the party's `"ativo"` rows (each as often as the table holds it), most recent interaction first |
| MatchBusiness.ListarAtivos | src/business/matchBusiness.ts:237-278 | every listed row details an `"ativo"` match of the party, every such match is listed, the list has as many rows as the table has such matches, and it is ordered by last interaction |
| MatchBusiness.ListagemSemRepeticao | src/business/matchBusiness.ts:237-278 | on a table without repeated rows, a listing shows each of the party's active matches exactly once |
| MatchBusiness.ListarMatchesUsuario | src/business/matchBusiness.ts:237-278 | exactly the user's `"ativo"` matches, detailed, one listed row per such row of the table, most recent interaction first |
| MatchBusiness.ListarMatchesInstituicao | src/business/matchBusiness.ts:280-321 | exactly the institution's `"ativo"` matches, detailed, one listed row per such row of the table, most recent interaction first |
| MatchBusiness.MontarConsulta | src/business/matchBusiness.ts:324-335 | the built query selects a row exactly when it has the id and the user and institution of every truthy scope id |
| MatchBusiness.Primeiro | src/business/matchBusiness.ts:337-354 | nothing exactly when no row is selected; otherwise a selected row of the table |
| MatchBusiness.BuscarMatchPorId | src/business/matchBusiness.ts:323-376 | null exactly when no match has the id within the scope; otherwise that match, detailed |
| MatchBusiness.AtualizarOnde | src/business/matchBusiness.ts:388-391 | the update keeps every row's id, user, institution and pet |
| MatchBusiness.AtualizarStatusMatch | src/business/matchBusiness.ts:378-394 | answers whether a row is in scope; those rows get the status and `now`, the others are unchanged; the invariants are kept |
| MatchBusiness.ConcluirMatch | src/business/matchBusiness.ts:154-171 | after both likes: an existing pair is refused by the unique constraint, writing nothing (rendered in the model as the "Erro ao criar match" error; the store raises its own constraint error); otherwise an `"ativo"` match is appended and the answer carries its id and the match message |
| MatchBusiness.GravarSwipeUsuario | src/business/matchBusiness.ts:138-142 | appends the user's swipe and keeps the invariants; institution likes are unchanged, and the pair has no match yet |
| MatchBusiness.SwipeUsuario | src/business/matchBusiness.ts:120-178 | errors in order (no pet, pet unavailable, already judged) writing nothing; otherwise the swipe is appended and a match made exactly on a like the pet's owner already reciprocated; the message follows the outcome; invariants kept |
| MatchBusiness.GravarSwipeInstituicao | src/business/matchBusiness.ts:195-199 | appends the institution's swipe and keeps the invariants; user likes are unchanged, and while owners are current the pet has no match |
| MatchBusiness.SwipeInstituicao | src/business/matchBusiness.ts:180-235 | errors in order (pet missing or not the institution's, already judged) writing nothing; otherwise the swipe is appended and a match made exactly on a like the named user already gave; the unique-constraint failure needs an earlier owner change; invariants kept |
| MatchBusiness.SegundoSwipeRecusado | src/business/matchBusiness.ts:130-136 | after a successful swipe, a second swipe by the same user on the same pet fails as already judged |
| MatchBusiness.LikeDaInstituicaoValeParaTodos | src/business/matchBusiness.ts:186-226 | an institution's one like on its pet, given while viewing any user, makes the next like by another user on that pet a match |
| UsuarioBusiness.CriarUsuario | src/business/usuarioBusiness.ts:14-33 | a registered email fails with nothing written; otherwise the name, email and password hash are stored under a fresh id and the public view is returned |
| UsuarioBusiness.Login | src/business/usuarioBusiness.ts:36-65 | fails with one error for an unknown email or a wrong password; succeeds exactly when the email's user verifies, answering a token signed over id and email and the public view |
| UsuarioBusiness.BuscarUsuarioPorId | src/business/usuarioBusiness.ts:68-80 | null exactly for an unknown id; otherwise the id, name and email |
| UsuarioBusiness.AtualizarUsuario | src/business/usuarioBusiness.ts:83-112 | an email held by another user fails, writing nothing; with no truthy field answers false; otherwise answers whether the user exists, whose truthy fields are replaced |
| UsuarioBusiness.DeletarUsuario | src/business/usuarioBusiness.ts:115-120 | removes the row and answers whether it existed |
| UsuarioBusiness.CadastroEntaoLogin | src/business/usuarioBusiness.ts:14-65 | sign-up with a new email followed by login with the same password succeeds and answers the new user's view |
| InstituicaoBusiness.ListarInstituicoes | src/business/instituicaoBusiness.ts:9-23 | every institution exactly once, each mapped to its response |
| InstituicaoBusiness.LinhaNova | src/business/instituicaoBusiness.ts:45-55 | the stored row keeps name and email; each optional field is kept when truthy and NULL otherwise |
| InstituicaoBusiness.CriarInstituicao | src/business/instituicaoBusiness.ts:26-72 | a registered email, then a supplied registered CNPJ, fails with nothing written; otherwise the row is inserted under a fresh id and returned |
| InstituicaoBusiness.BuscarInstituicaoPorId | src/business/instituicaoBusiness.ts:75-93 | null exactly for an unknown id; otherwise the response holding every column of the row |
| InstituicaoBusiness.PatchDeAplicado | src/business/instituicaoBusiness.ts:108-155 | applying the built `updateData` gives exactly the row the field rules describe (name and email only when truthy, the other fields when present with falsy as NULL) and keeps the registration date |
| InstituicaoBusiness.PatchVazioSemCampos | src/business/instituicaoBusiness.ts:157-159 | `updateData` is empty exactly when the update carries no applicable field |
| InstituicaoBusiness.MontarPatch | src/business/instituicaoBusiness.ts:108-155 | the email conflict is reported first, then the CNPJ conflict; without conflict the result is the update's columns |
| InstituicaoBusiness.SubstituirPreservaUnicidade | src/database/migrations/20251015003823_create_all_tables.ts:32-33 | replacing one row with an unconflicting email and CNPJ keeps both unique constraints |
| InstituicaoBusiness.AtualizarInstituicao | src/business/instituicaoBusiness.ts:96-166 | conflicts fail in order, writing nothing; with no field answers false; otherwise answers whether the institution exists, which then holds the updated row; uniqueness is kept |
| InstituicaoBusiness.DeletarInstituicao | src/business/instituicaoBusiness.ts:169-173 | removes the row and answers whether it existed |
| EnderecoBusiness.ListarEnderecos | src/business/enderecoBusiness.ts:7-22 | every address exactly once, each mapped to its response |
| EnderecoBusiness.LinhaNova | src/business/enderecoBusiness.ts:28-38 | street, district, city and state kept; each optional field kept when truthy and NULL otherwise |
| EnderecoBusiness.CriarEndereco | src/business/enderecoBusiness.ts:24-61 | inserts the row under a fresh id and returns that stored row |
| EnderecoBusiness.BuscarEnderecoPorId | src/business/enderecoBusiness.ts:63-80 | null exactly for an unknown id; otherwise the row |
| EnderecoBusiness.PatchDeAplicado | src/business/enderecoBusiness.ts:83-92 | applying the built `updateData` gives exactly the row the field rules describe |
| EnderecoBusiness.PatchVazioSemCampos | src/business/enderecoBusiness.ts:94 | `updateData` is empty exactly when the update carries no applicable field |
| EnderecoBusiness.MontarPatch | src/business/enderecoBusiness.ts:83-92 | the object built field by field is the update's columns |
| EnderecoBusiness.AtualizarEndereco | src/business/enderecoBusiness.ts:82-98 | answers true exactly when some field applies and the address exists, which then holds the updated row; otherwise nothing changes |
| EnderecoBusiness.DeletarEndereco | src/business/enderecoBusiness.ts:100-110 | an address a user or institution references fails, removing nothing; otherwise it is removed and the answer says whether it existed; no reference is left dangling |
| PetBusiness.ListarPets | src/business/petBusiness.ts:9-23 | every pet exactly once, each mapped to its response |
| PetBusiness.LinhaNova | src/business/petBusiness.ts:30-40 | the stored pet always has sex "N" and status "disponível", is active unless `ativo` is false (so available exactly then), is vaccinated and neutered only when given true, keeps the colour and leaves breed, age, size, health and history NULL |
| PetBusiness.CriarPet | src/business/petBusiness.ts:26-58 | inserts the row under a fresh id; answers with the given values and defaults, colour only when given; no match names the new pet |
| PetBusiness.NovoPetSemMatches | src/business/petBusiness.ts:30-40 | a pet stored under a fresh id has no match and keeps the current-owner invariant |
| PetBusiness.BuscarPetPorId | src/business/petBusiness.ts:61-79 | null exactly for an unknown id; otherwise the row's response |
| PetBusiness.PatchDeAplicado | src/business/petBusiness.ts:83-87 | applying the built `updateData` gives exactly the row the field rules describe |
| PetBusiness.PatchVazioSemCampos | src/business/petBusiness.ts:89 | `updateData` is empty exactly when no field is truthy |
| PetBusiness.MesmoDonoMantemDonos | src/business/petBusiness.ts:87 | an update that keeps the owner keeps every match naming its pet's current owner |
| PetBusiness.MontarPatch | src/business/petBusiness.ts:83-87 | the object built field by field is the update's columns |
| PetBusiness.AtualizarPet | src/business/petBusiness.ts:82-93 | answers true exactly when a field is truthy and the pet exists, which then holds the updated row; the current-owner invariant survives unless the owner changes |
| PetBusiness.DeletarPet | src/business/petBusiness.ts:96-99 | removes the row, answers whether it existed, and keeps the current-owner invariant |
| AdocaoBusiness.CriarAdocao | src/business/adocaoBusiness.ts:9-22 | a missing pet fails, writing nothing; otherwise a request owned by the pet's institution, status "pendente" unless a truthy status is given, is stored under a fresh id |
| AdocaoBusiness.AtualizarStatus | src/business/adocaoBusiness.ts:25-27 | any status is written to the row with that id; answers 1 when it exists and 0 otherwise |
| AdocaoBusiness.AprovadasForaDe | src/business/matchBusiness.ts:92-95 | writing one request leaves every other request's approval unchanged |
| AdocaoBusiness.TotalAposEscrita | src/business/matchBusiness.ts:92-107 | writing one request changes the user's approved-adoption count by the old row leaving and the new row joining |
| AdocaoBusiness.AprovarAdocao | src/business/adocaoBusiness.ts:25-27 | approving an unapproved request adds exactly one to its user's approved-adoption count in the institution feed |
| DoacaoBusiness.PrimeiraReferenciaAusente | src/business/doacaoBusiness.ts:12-31 | the first missing reference in the order user, institution, donation type; none exactly when all exist |
| DoacaoBusiness.RegistrarDoacao | src/business/doacaoBusiness.ts:9-63 | fails with the first missing reference, writing nothing; otherwise stores one row with the quantity unchanged and status "pendente" unless truthy, and returns the stored row |
| ResgateBusiness.LinhaReporte | src/business/resgateBusiness.ts:10-13 | the place is the location when non-empty, else the description; the condition is the truthy status, else "desconhecida" |
| ResgateBusiness.ReportarResgate | src/business/resgateBusiness.ts:8-19 | stores the report under a fresh id and returns that id |
| ResgateBusiness.DoisReportes | src/business/resgateBusiness.ts:10-18 | two reports get distinct ids and each keeps its own row |

## Left out

- HTTP controllers, routing, authentication middleware and request validation are not part of
  this model.
  - Validation the business layer relies on is a precondition: a two-letter state
    (`CriarEndereco`, `AtualizarEndereco`) and a positive donation quantity (`RegistrarDoacao`).
  - The closed sets of swipe types and match statuses are datatypes.
  - The adoption status whitelist lives in the controller. `AdocaoBusiness.AtualizarStatus`
    accepts any string, as the business code does.
- Password hashing and comparison (bcrypt) and token signing (jsonwebtoken) are function
  parameters. The 24-hour expiry and the secret are not modelled.
- `ORDER BY RANDOM()` becomes an `order` parameter that lists each id once. The random
  distribution itself is not modelled.
- Rows with equal `ultima_interacao` may come out of the listings in any order. Only the
  descending order is stated.
- The clock becomes the `now` parameter. Timestamps are integers.
- Decimal columns (coordinates, quantity) are stored and returned, never computed on.
  `Number(...)` conversions are the identity.
- Foreign keys, their errors and cascades are not modelled. For example:
  - deleting a user, an institution or a pet succeeds even when rows reference it;
  - inserting an adoption or a match with a dangling user id succeeds.
  - Only the address reference check that `deletarEndereco` performs is modelled.
- Store errors other than the MATCHES unique constraint are not modelled. This covers lost
  connections, column lengths and the "id not returned" branches that follow an insert.
  - A unique-constraint refusal of a match insert surfaces in the model as the "Erro ao criar
    match" error.
- The store driver's id-return shapes (an array, a scalar or an `{id}` object) become "an
  insert returns the new row's serial id".
- Concurrency and transactions are left out; each operation runs alone. A swipe whose match
  insert fails keeps its swipe row, as in the source.
- JSON `null` in an update body is folded into "present and falsy". `undefined` is `None`.
- `limite` is a natural number. Its default of 10 is the caller's choice.
- MatchBusiness.DescobrirPets: completeness is stated for pet ids other than 0. The placeholder
  exclusion id 0 is never a serial id.
- AdocaoBusiness.CriarAdocao: returns the new request id. The source returns the driver's raw
  insert result, which its caller does not inspect.
- MatchBusiness.AtualizarStatusMatch: answers whether some row was in scope. The source
  compares the driver's updated-row count with zero. Ids are unique, so at most one row
  matches.
- ResgateBusiness.ReportarResgate: the description and the location are strings, with the empty
  string as JavaScript's falsy value. A missing location is not a separate case.
- `listarDoacoesPorInstituicao` is called by the donation controller but defined in no
  business file, so it is not part of this model.
