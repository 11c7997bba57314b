/** The records the dashboard passes around: the legacy dashboard's
    project and task shapes, which both front ends use, and the second
    front end's own sheet-level project shape. Timestamps are
    milliseconds since 1970-01-01; `None` stands for `null` or a missing
    optional field. */
module Domain {
  import opened Options
  import opened Calendar

  /** Every status label either front end produces. The legacy
      `ProjectStatus` is the first five; the `Status` union of the second
      front end drops 'Não Iniciado' and adds 'Bloqueado' and 'Pendente'. */
  datatype Status = Concluido | EmAndamento | Atrasado | Cancelado | NaoIniciado | Bloqueado | Pendente

  predicate IsProjectStatus(s: Status) {
    s.Concluido? || s.EmAndamento? || s.Atrasado? || s.Cancelado? || s.NaoIniciado?
  }

  predicate IsSheetStatus(s: Status) {
    !s.NaoIniciado?
  }

  function StatusLabel(s: Status): string {
    match s
    case Concluido => "Concluído"
    case EmAndamento => "Em Andamento"
    case Atrasado => "Atrasado"
    case Cancelado => "Cancelado"
    case NaoIniciado => "Não Iniciado"
    case Bloqueado => "Bloqueado"
    case Pendente => "Pendente"
  }

  datatype Theme = Light | Dark | Vivo

  /** A legacy task. Its times are numbers or null, and a time taken from an
      Invalid Date is NaN; `None` stands for both, since every reader of these
      fields tests them for truthiness (or `t !== null && t > 0`) first, where
      null and NaN fail alike. */
  datatype TaskData = TaskData(
    name: string,
    startDate: Option<int>,
    plannedEnd: Option<int>,
    actualEnd: Option<int>,
    duration: real,
    progress: real)

  /** One month of a burnup table computed by the workbook itself. */
  datatype BurnupRow = BurnupRow(
    date: int,
    baseline: real,
    realized: Option<real>,
    forecast: Option<real>,
    totalScope: Option<real>)

  /** A project. `stageDurations` is an object whose keys keep insertion
      order, so it is an association list with distinct keys. `technology`
      and `burnupData` are the extra fields the second front end reads. */
  datatype ProjectData = ProjectData(
    id: string,
    name: string,
    description: Option<string>,
    startDate: Option<int>,
    baselineDate: Option<int>,
    actualDate: Option<int>,
    status: Status,
    saving: real,
    tasks: seq<TaskData>,
    stageDurations: seq<(string, real)>,
    factory: Option<string>,
    squad: Option<string>,
    architect: Option<string>,
    analyst: Option<string>,
    developer: Option<string>,
    technology: Option<string>,
    burnupData: Option<seq<BurnupRow>>)

  /** An optional string field is truthy when present and non-empty. */
  predicate Present(s: Option<string>) {
    s.Some? && s.value != ""
  }

  /** `statusDistribution` is an object: an association list from status to count. */
  datatype DashboardMetrics = DashboardMetrics(
    totalSaving: real,
    totalProjects: nat,
    statusDistribution: seq<(Status, nat)>,
    completionRate: real,
    avgDelayDays: real)

  /** The legacy dashboard's filter bar; 'Todos' means no restriction. */
  const Todos: string := "Todos"

  datatype StatusFilter = AnyStatus | OnlyStatus(status: Status)

  datatype FilterState = FilterState(
    searchTerm: string,
    statusFilter: StatusFilter,
    projectFilter: string,
    squadFilter: string)

  /** The second front end's sheet-level records. A progress of `None` is
      NaN; a task's dates are Date objects or null. */
  datatype Task = Task(
    id: string,
    name: string,
    start: Option<JsDate>,
    end: Option<JsDate>,
    duration: real,
    status: Status,
    progress: Option<real>)

  datatype Team = Team(squad: string, fabrica: string, arq: string, af: string, dev: string)

  datatype Project = Project(
    id: string,
    title: string,
    description: Option<string>,
    benefit: string,
    team: Team,
    tasks: seq<Task>,
    status: Status,
    progress: Option<int>,
    startDate: Option<int>,
    endDate: Option<int>)
}
