// The corporate protocol as one transition system: the roster and its purge,
// the campaign calls, any number of dispatchers and workers, and any number of
// recipients claiming. An event is one database call, or one decision between
// two; what the environment chooses (time, tokens, deliveries, OTP verdicts,
// row order) is part of the event.

module Protocol {
  import opened Wrappers
  import opened RosterStore
  import opened RosterPurge
  import opened Campaigns
  import opened Dispatch
  import opened ClaimFlow

  // A write that took a claim out of the open state, in the order they happened.
  datatype Win = Win(claimId: nat, status: ClaimStatus)

  datatype State = State(
    roster: Roster, campaigns: seq<Campaign>, jobs: seq<Job>, claims: seq<Claim>,
    addresses: map<nat, Address>,
    dispatchers: map<nat, Dispatcher>, workers: map<nat, Worker>, clients: map<nat, Client>,
    wins: seq<Win>)

  datatype Event =
    | ImportRoster(orgStatus: map<nat, string>, orgId: nat, csv: Option<string>, purgeAfter: int)
    | ArchiveContact(orgId: nat, contactId: nat, purgeAfter: int)
    | PurgeRoster(now: int)
    | CreateCampaign(
        orgStatus: map<nat, string>, actor: nat, orgId: nat,
        name: Option<string>, occasion: Option<string>, message: Option<string>)
    | ReviseCampaign(orgId: nat, campaignId: nat, actor: nat, catalog: Catalog, action: Campaigns.Action)
    | BeginDispatch(dispatcher: nat, orgId: nat, campaignId: nat)
    | LoadRows(dispatcher: nat, order: seq<nat>)
    | CommitRows(dispatcher: nat)
    | BeginSweep(worker: nat)
    | Work(worker: nat, step: WorkerStep)
    | WorkerDies(worker: nat)
    | Call(client: nat, token: string, request: Request, now: int)
    | Return(client: nat, otpOk: bool, session: string, now: int)

  function DispatcherOf(s: State, d: nat): Dispatcher {
    if d in s.dispatchers then s.dispatchers[d] else Dispatcher.Away
  }

  function WorkerOf(s: State, w: nat): Worker {
    if w in s.workers then s.workers[w] else Idle
  }

  function ClientOf(s: State, c: nat): Client {
    if c in s.clients then s.clients[c] else Absent
  }

  function TablesOf(s: State): Tables {
    Tables(s.roster.contacts, s.campaigns, s.jobs, s.claims)
  }

  function PurgeStep(s: State, now: int): State {
    var left := Remaining(s.roster.contacts, s.campaigns, now);
    s.(roster := s.roster.(contacts := left), campaigns := Cascade(s.campaigns, left))
  }

  function ReviseStep(
    s: State, orgId: nat, id: nat, actor: nat, catalog: Catalog, action: Campaigns.Action): State
  {
    var revised := Revise(s.campaigns, orgId, id, actor, s.roster.contacts, catalog, action);
    if revised.Success? then s.(campaigns := s.campaigns[id := revised.value]) else s
  }

  function CommitStep(s: State, d: nat): State {
    var committed := CommitDispatch(s.campaigns, s.jobs, DispatcherOf(s, d));
    s.(campaigns := committed.campaigns, jobs := committed.jobs,
       dispatchers := s.dispatchers[d := committed.dispatcher])
  }

  function WorkStep(s: State, w: nat, step: WorkerStep): State {
    var after := Advance(Progress(TablesOf(s), WorkerOf(s, w)), step);
    s.(campaigns := after.tables.campaigns, jobs := after.tables.jobs, claims := after.tables.claims,
       workers := s.workers[w := after.worker])
  }

  function WinOf(before: seq<Claim>, after: seq<Claim>, client: Client): seq<Win> {
    if (client.Expiring? || client.Acting?) && client.claimId < |before| && client.claimId < |after|
       && before[client.claimId].status == ClaimStatus.Open && after[client.claimId].status != ClaimStatus.Open
    then [Win(client.claimId, after[client.claimId].status)] else []
  }

  function ReturnStep(s: State, c: nat, otpOk: bool, session: string, now: int): State {
    var client := ClientOf(s, c);
    var written := Write(s.claims, s.addresses, client, otpOk, session, now);
    s.(claims := written.claims, addresses := written.addresses, clients := s.clients[c := written.client],
       wins := s.wins + WinOf(s.claims, written.claims, client))
  }

  function Apply(s: State, e: Event): State {
    match e
    case ImportRoster(orgStatus, orgId, csv, purgeAfter) =>
      s.(roster := AfterImport(orgStatus, s.roster, orgId, csv, purgeAfter))
    case ArchiveContact(orgId, contactId, purgeAfter) =>
      s.(roster := AfterArchive(s.roster, orgId, contactId, purgeAfter))
    case PurgeRoster(now) => PurgeStep(s, now)
    case CreateCampaign(orgStatus, actor, orgId, name, occasion, message) =>
      var created := Create(orgStatus, actor, orgId, name, occasion, message);
      if created.Success? then s.(campaigns := s.campaigns + [created.value]) else s
    case ReviseCampaign(orgId, id, actor, catalog, action) => ReviseStep(s, orgId, id, actor, catalog, action)
    case BeginDispatch(d, orgId, id) =>
      s.(dispatchers := s.dispatchers[d := CheckDispatch(s.campaigns, orgId, id)])
    case LoadRows(d, order) =>
      s.(dispatchers := s.dispatchers[d := LoadRecipients(s.campaigns, DispatcherOf(s, d), order)])
    case CommitRows(d) => CommitStep(s, d)
    case BeginSweep(w) => if WorkerOf(s, w).Idle? then s.(workers := s.workers[w := Busy(Batch(s.jobs), 0, Next)]) else s
    case Work(w, step) => WorkStep(s, w, step)
    case WorkerDies(w) => s.(workers := s.workers[w := Idle])
    case Call(c, token, request, now) =>
      s.(clients := s.clients[c := Load(s.claims, token, request, now)])
    case Return(c, otpOk, session, now) => ReturnStep(s, c, otpOk, session, now)
  }

  const START := State(Roster(map[], 0), [], [], [], map[], map[], map[], map[], [])

  function Run(events: seq<Event>): State {
    RunFrom(START, events)
  }

  function RunFrom(s: State, events: seq<Event>): State {
    if events == [] then s else Apply(RunFrom(s, events[..|events| - 1]), events[|events| - 1])
  }
}
