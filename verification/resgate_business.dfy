/** Rescue reports: the place and condition rules, then one REPORTES_RESGATE row. */
module ResgateBusiness {
  import opened Common
  import opened Rows
  import opened Store

  /** The row a report stores: the location when it is non-empty, else the description, as
      the place; the given status, else "desconhecida", as the animal's condition; no
      reporter. */
  function LinhaReporte(descricao: string, localizacao: string, status: Option<string>, now: Timestamp): (row: Resgate)
    ensures localizacao != "" ==> row.descricaoLocal == localizacao
    ensures localizacao == "" ==> row.descricaoLocal == descricao
    ensures TruthyString(status) ==> row.condicaoAnimal == status.value
    ensures !TruthyString(status) ==> row.condicaoAnimal == "desconhecida"
    ensures row.usuarioReporterId.None? && row.dataHoraReporte == now
  {
    Resgate(None, now, if localizacao != "" then localizacao else descricao, StringOr(status, "desconhecida"))
  }

  /** `reportarResgate`: stores one report under a fresh id and returns that id. */
  method ReportarResgate(db: Db, descricao: string, localizacao: string, status: Option<string>, now: Timestamp)
    returns (id: int)
    requires db.Valid()
    modifies db`resgates, db`nextResgateId
    ensures db.Valid()
    ensures id == old(db.nextResgateId) && id !in old(db.resgates)
    ensures db.resgates == old(db.resgates)[id := LinhaReporte(descricao, localizacao, status, now)]
    ensures db.nextResgateId == old(db.nextResgateId) + 1
  {
    id := db.nextResgateId;
    db.resgates := db.resgates[id := LinhaReporte(descricao, localizacao, status, now)];
    db.nextResgateId := id + 1;
  }

  /** Two reports never share an id, and each keeps its own row. */
  method DoisReportes(db: Db, d1: string, l1: string, s1: Option<string>, d2: string, l2: string, s2: Option<string>, now: Timestamp)
    returns (id1: int, id2: int)
    requires db.Valid()
    modifies db`resgates, db`nextResgateId
    ensures id1 != id2
    ensures id1 in db.resgates && db.resgates[id1] == LinhaReporte(d1, l1, s1, now)
    ensures id2 in db.resgates && db.resgates[id2] == LinhaReporte(d2, l2, s2, now)
  {
    id1 := ReportarResgate(db, d1, l1, s1, now);
    id2 := ReportarResgate(db, d2, l2, s2, now);
  }
}
