/**
Model overrides and their audit log (internal/store/admin_models.go over the statements of
internal/store/dbgen/model_overrides.sql.go): table write and audit entry in one transaction, which may
fail at any step, and whose commit may be applied although it reports an error.
*/
module AuditReplay {
  datatype Override = Override(id: int, provider: string, upstreamModel: string, enabled: bool, config: string)

  datatype Params = Params(provider: string, modelAlias: string, upstreamModel: string, enabled: bool, config: string,
                           configValid: bool)

  /** provider and upstreamModel are the audited details of an upsert; other actions leave them empty. */
  datatype Entry = Entry(actor: int, action: string, targetType: string, targetId: string, provider: string,
                         upstreamModel: string)

  /** Where a transaction fails. CommitLies: the commit is applied and reports an error. */
  datatype Fault = NoFault | BeginFails | WriteFails | AuditFails | CommitFails | CommitLies

  datatype Outcome = Done | InvalidInput | NotFound | Failed

  datatype Store = Store(table: map<string, Override>, audit: seq<Entry>)

  datatype Stepped = Stepped(store: Store, outcome: Outcome)

  const UPSERTED := "model_override.upserted"
  const DELETED := "model_override.deleted"
  const MODEL_OVERRIDE := "model_override"

  predicate ValidParams(p: Params) {
    p.provider != "" && p.modelAlias != "" && p.upstreamModel != "" && (p.config == "" || p.configValid)
  }

  /** INSERT ... ON CONFLICT (model_alias) DO UPDATE: the id survives, everything else is replaced. */
  function UpsertRow(table: map<string, Override>, p: Params, newId: int): map<string, Override> {
    var id := if p.modelAlias in table then table[p.modelAlias].id else newId;
    table[p.modelAlias := Override(id, p.provider, p.upstreamModel, p.enabled, p.config)]
  }

  predicate Applies(fault: Fault) {
    fault.NoFault? || fault.CommitLies?
  }

  function UpsertStep(s: Store, actor: int, p: Params, newId: int, fault: Fault): Stepped {
    if actor <= 0 || !ValidParams(p) then Stepped(s, InvalidInput)
    else if !Applies(fault) then Stepped(s, Failed)
    else
      Stepped(Store(UpsertRow(s.table, p, newId),
                    s.audit + [Entry(actor, UPSERTED, MODEL_OVERRIDE, p.modelAlias, p.provider, p.upstreamModel)]),
              if fault.NoFault? then Done else Failed)
  }

  function DeleteStep(s: Store, actor: int, alias: string, fault: Fault): Stepped {
    if actor <= 0 || alias == "" then Stepped(s, InvalidInput)
    else if fault.BeginFails? || fault.WriteFails? then Stepped(s, Failed)
    else if alias !in s.table then Stepped(s, NotFound)
    else if !Applies(fault) then Stepped(s, Failed)
    else
      Stepped(Store(s.table - {alias}, s.audit + [Entry(actor, DELETED, MODEL_OVERRIDE, alias, "", "")]),
              if fault.NoFault? then Done else Failed)
  }

  // ---------------------------------------------------------------- the repository

  class AdminModelRepository {
    var table: map<string, Override>
    var audit: seq<Entry>

    ghost function View(): Store
      reads this
    {
      Store(table, audit)
    }

    constructor ()
      ensures View() == Store(map[], [])
    {
      table, audit := map[], [];
    }

    method UpsertWithAudit(actor: int, p: Params, newId: int, fault: Fault) returns (outcome: Outcome)
      modifies this
      ensures Stepped(View(), outcome) == UpsertStep(old(View()), actor, p, newId, fault)
    {
      if actor <= 0 || !ValidParams(p) {
        return InvalidInput;
      }
      if fault.BeginFails? {
        return Failed;
      }
      // The transaction works on its own copies; a return before the commit rolls them back.
      var txTable, txAudit := table, audit;
      if fault.WriteFails? {
        return Failed;
      }
      txTable := UpsertRow(txTable, p, newId);
      if fault.AuditFails? {
        return Failed;
      }
      txAudit := txAudit + [Entry(actor, UPSERTED, MODEL_OVERRIDE, p.modelAlias, p.provider, p.upstreamModel)];
      if fault.CommitFails? {
        return Failed;
      }
      table, audit := txTable, txAudit;
      return if fault.CommitLies? then Failed else Done;
    }

    method DeleteWithAudit(actor: int, alias: string, fault: Fault) returns (outcome: Outcome)
      modifies this
      ensures Stepped(View(), outcome) == DeleteStep(old(View()), actor, alias, fault)
    {
      if actor <= 0 || alias == "" {
        return InvalidInput;
      }
      if fault.BeginFails? {
        return Failed;
      }
      var txTable, txAudit := table, audit;
      if fault.WriteFails? {
        return Failed;
      }
      if alias !in txTable {
        return NotFound;
      }
      txTable := txTable - {alias};
      if fault.AuditFails? {
        return Failed;
      }
      txAudit := txAudit + [Entry(actor, DELETED, MODEL_OVERRIDE, alias, "", "")];
      if fault.CommitFails? {
        return Failed;
      }
      table, audit := txTable, txAudit;
      return if fault.CommitLies? then Failed else Done;
    }
  }

  // ---------------------------------------------------------------- replay

  datatype Mapping = Mapping(provider: string, upstreamModel: string)

  /** The table as clients see it: alias to provider and upstream model. */
  function Mappings(table: map<string, Override>): map<string, Mapping> {
    map alias | alias in table :: Mapping(table[alias].provider, table[alias].upstreamModel)
  }

  /** The same view from the audit log alone. */
  function Replay(audit: seq<Entry>): map<string, Mapping> {
    if audit == [] then map[]
    else
      var earlier, e := Replay(audit[..|audit| - 1]), audit[|audit| - 1];
      if e.targetType != MODEL_OVERRIDE then earlier
      else if e.action == UPSERTED then earlier[e.targetId := Mapping(e.provider, e.upstreamModel)]
      else if e.action == DELETED then earlier - {e.targetId}
      else earlier
  }

  /** OtherAudit stands for every other writer of the log: users, credentials, sessions. */
  datatype Op =
    | Upsert(actor: int, p: Params, newId: int, fault: Fault)
    | Delete(actor: int, alias: string, fault: Fault)
    | OtherAudit(entry: Entry)

  predicate Allowed(op: Op) {
    op.OtherAudit? ==> op.entry.targetType != MODEL_OVERRIDE
  }

  function Next(s: Store, op: Op): Store {
    match op
    case Upsert(actor, p, newId, fault) => UpsertStep(s, actor, p, newId, fault).store
    case Delete(actor, alias, fault) => DeleteStep(s, actor, alias, fault).store
    case OtherAudit(entry) => s.(audit := s.audit + [entry])
  }

  function Run(ops: seq<Op>): Store {
    if ops == [] then Store(map[], []) else Next(Run(ops[..|ops| - 1]), ops[|ops| - 1])
  }

  lemma StepKeepsReplay(s: Store, op: Op)
    requires Mappings(s.table) == Replay(s.audit) && Allowed(op)
    ensures Mappings(Next(s, op).table) == Replay(Next(s, op).audit)
  {
    var s' := Next(s, op);
    if s'.audit != s.audit {
      assert s'.audit[..|s'.audit| - 1] == s.audit;
    }
  }

  /** In every run, with failures anywhere, the table is what the audit log says. */
  lemma {:induction false} AuditLogReplaysTable(ops: seq<Op>)
    requires forall op | op in ops :: Allowed(op)
    ensures Mappings(Run(ops).table) == Replay(Run(ops).audit)
  {
    if ops != [] {
      AuditLogReplaysTable(ops[..|ops| - 1]);
      StepKeepsReplay(Run(ops[..|ops| - 1]), ops[|ops| - 1]);
    }
  }

  /** The outcome that the caller sees. */
  function OutcomeOf(s: Store, op: Op): Outcome {
    match op
    case Upsert(actor, p, newId, fault) => UpsertStep(s, actor, p, newId, fault).outcome
    case Delete(actor, alias, fault) => DeleteStep(s, actor, alias, fault).outcome
    case OtherAudit(_) => Done
  }

  /** Row and audit entry of the operation are both there, and no other row has changed. */
  ghost predicate Written(s: Store, s': Store, op: Op) {
    match op
    case Upsert(actor, p, _, _) =>
      && s'.audit == s.audit + [Entry(actor, UPSERTED, MODEL_OVERRIDE, p.modelAlias, p.provider, p.upstreamModel)]
      && Mappings(s'.table) == Mappings(s.table)[p.modelAlias := Mapping(p.provider, p.upstreamModel)]
      && s'.table - {p.modelAlias} == s.table - {p.modelAlias}
    case Delete(actor, alias, _) =>
      && s'.audit == s.audit + [Entry(actor, DELETED, MODEL_OVERRIDE, alias, "", "")]
      && alias in s.table && s'.table == s.table - {alias}
    case OtherAudit(_) => true
  }

  /**
  A reported success means that both were written, a refusal that nothing was; after a reported failure both
  were written if the commit lied, and nothing otherwise.
  */
  lemma BothOrNone(s: Store, op: Op)
    requires !op.OtherAudit?
    ensures match OutcomeOf(s, op)
            case Done => Written(s, Next(s, op), op)
            case Failed => if op.fault.CommitLies? then Written(s, Next(s, op), op) else Next(s, op) == s
            case _ => Next(s, op) == s
  {
    var s' := Next(s, op);
    if op.Upsert? && s' != s {
      assert Mappings(s'.table) == Mappings(s.table)[op.p.modelAlias := Mapping(op.p.provider, op.p.upstreamModel)];
    }
  }

  /** Nothing is ever taken out of the log, and what the other writers add is there. */
  lemma LogIsKept(s: Store, op: Op)
    ensures s.audit <= Next(s, op).audit
    ensures op.OtherAudit? ==> Next(s, op).audit == s.audit + [op.entry] && Next(s, op).table == s.table
  {
  }

  /** When an operation is refused, said of its input; and when a Delete finds nothing. */
  lemma RefusedExactly(s: Store, op: Op)
    ensures OutcomeOf(s, op).InvalidInput? <==>
            match op
            case Upsert(actor, p, _, _) =>
              actor <= 0 || p.provider == "" || p.modelAlias == "" || p.upstreamModel == "" ||
              (p.config != "" && !p.configValid)
            case Delete(actor, alias, _) => actor <= 0 || alias == ""
            case OtherAudit(_) => false
    ensures OutcomeOf(s, op).NotFound? <==>
            op.Delete? && op.actor > 0 && op.alias != "" && op.alias !in s.table &&
            op.fault != BeginFails && op.fault != WriteFails
    ensures OutcomeOf(s, op).Done? && !op.OtherAudit? ==> op.fault == NoFault
  {
  }

  /** The whole row after an upsert that was applied: the id survives, everything else is as given. */
  lemma UpsertedRow(s: Store, actor: int, p: Params, newId: int, fault: Fault)
    requires OutcomeOf(s, Upsert(actor, p, newId, fault)).Done? || Next(s, Upsert(actor, p, newId, fault)) != s
    ensures var s' := Next(s, Upsert(actor, p, newId, fault));
            && p.modelAlias in s'.table
            && var row := s'.table[p.modelAlias];
               && row.id == (if p.modelAlias in s.table then s.table[p.modelAlias].id else newId)
               && row.provider == p.provider && row.upstreamModel == p.upstreamModel
               && row.enabled == p.enabled && row.config == p.config
  {
  }

  /** The log does not determine whether an override is enabled: for every upsert there are two tables with one log. */
  lemma EnabledIsNotAudited(actor: int, p: Params, newId: int)
    requires actor > 0 && ValidParams(p)
    ensures var a := Next(Store(map[], []), Upsert(actor, p.(enabled := true), newId, NoFault));
            var b := Next(Store(map[], []), Upsert(actor, p.(enabled := false), newId, NoFault));
            a.audit == b.audit && a.table != b.table
  {
    var a := UpsertRow(map[], p.(enabled := true), newId);
    var b := UpsertRow(map[], p.(enabled := false), newId);
    assert a[p.modelAlias] != b[p.modelAlias];
  }
}
