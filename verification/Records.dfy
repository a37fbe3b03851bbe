/** The records the store holds, and its whole in-memory state as a value.
    Times are integer nanoseconds since 1970; an absent pointer is `None`. */
module Records {
  import opened Text

  type Time = int

  /** The zero time of the source: the start of the year 1. */
  const ZERO_TIME: Time := -62_135_596_800_000_000_000

  /** A value of an asset's free-form spec. */
  datatype Value =
    | Str(s: string)
    | Placement(x: real, y: real, rot: real)
    | Edges(outs: seq<(string, string)>)
    | Opaque(tag: int)

  type Spec = map<string, Value>

  datatype Asset = Asset(path: string, version: int, spec: Spec, createdAt: Time, updatedAt: Time)

  datatype Alarm = Alarm(id: string, path: string, severity: string, state: string, summary: string,
                         since: Time, ackedBy: string, ackedAt: Option<Time>)

  datatype Ticket = Ticket(id: string, alarmId: string, assetPath: string, title: string, severity: string,
                           state: string, assignee: string, openedAt: Time, ackedAt: Option<Time>,
                           resolvedAt: Option<Time>, closedAt: Option<Time>, escalatedAt: Option<Time>,
                           version: int, runbook: string)

  datatype PMSchedule = PMSchedule(id: string, assetPath: string, intervalDays: int, lastRun: Option<Time>,
                                   nextDue: Time, title: string, severity: string, enabled: bool)

  datatype InspectionTemplate = InspectionTemplate(id: string, assetPath: string, title: string,
                                                   items: seq<string>, interval: int, nextDue: Time, enabled: bool)

  datatype SparePart = SparePart(id: string, sku: string, name: string, qty: int, minQty: int, location: string)

  datatype SpareTxn = SpareTxn(id: string, spareId: string, delta: int, ticketId: string, at: Time)

  datatype RiskClass = ClassA | ClassB | ClassC

  datatype SetAudit = SetAudit(id: string, path: string, class_: RiskClass, value: real, actor: string,
                               second: string, at: Time, readback: bool, note: string, requestId: string)

  datatype Tenant = Tenant(id: string, displayName: string, tier: string, status: string,
                           createdAt: Time, updatedAt: Time)

  datatype Org = Org(id: string, tenantId: string, name: string, createdAt: Time)

  datatype SiteOrg = SiteOrg(site: string, orgId: string, createdAt: Time, updatedAt: Time)

  /** The closed set of operation tokens of the tenant audit. */
  datatype AuditOp = TenantCreated | OrgCreated | OrgRenamed | OrgDeleted | TierChanged | SiteReattached | TenantStatus

  datatype TenantAudit = TenantAudit(id: string, ts: Time, principal: string, tenantId: string,
                                     op: AuditOp, detail: string)

  datatype RoleBinding = RoleBinding(id: string, subject: string, scope: string, origin: string,
                                     createdAt: Time, updatedAt: Time)

  /** Spare parts and their stock movements. */
  datatype Stock = Stock(spares: map<string, SparePart>, txns: seq<SpareTxn>)

  /** Tenants, their orgs, the sites of orgs, and the audit of all changes. */
  datatype Tenancy = Tenancy(
    tenants: map<string, Tenant>,
    orgs: map<string, Org>,
    sites: map<string, SiteOrg>,
    auds: seq<TenantAudit>)

  /** The whole in-memory index (core/store.go:680-701). */
  datatype Mem = Mem(
    assets: map<string, Asset>,
    alarms: map<string, Alarm>,
    tickets: map<string, Ticket>,
    pmSchedules: map<string, PMSchedule>,
    inspections: map<string, InspectionTemplate>,
    stock: Stock,
    setAudits: seq<SetAudit>,
    tenancy: Tenancy,
    roleBindings: seq<RoleBinding>)

  datatype Error =
    | VersionConflict | HasChildren | DuplicateActiveTicket | SkuExists | InsufficientStock | AlarmNotAckable
    | TierDowngrade | OrgNameConflict | OrgOwnsResources | TenantExists | TenantOwnsOrgs
    | NotFound | BadInput | SaveFailed

  datatype Result<+T> = Ok(value: T) | Err(error: Error)

  /** What an operation intends for the part of the store it works on: answer
      without touching it, or write a new value of it and then answer. */
  datatype Intent<S, T> = Answer(result: Result<T>) | Write(state: S, result: Result<T>)
}
