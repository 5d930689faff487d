/** The records of `memory_core/memory/models.py`, and the option and result shapes shared by every module.
    A JSON value is its canonical text (keys sorted), so equality of values is equality of texts. */
module Types {

  datatype Option<+T> = None | Some(value: T)

  /** The three error classes the modelled operations raise. */
  datatype Error =
    | Conflict  // ConflictError: the state moved, or the request does not fit it
    | Schema    // SchemaError: the request is malformed for the owner's registry
    | Review    // ReviewNeeded: the change is valid but needs an approval

  datatype Result<+T> = Ok(value: T) | Err(error: Error)

  type Id = string

  /** An embedding; only its identity matters outside the scoring modules. */
  type Vector = seq<real>

  datatype Status = Active | Superseded | Disputed

  datatype Scope = UserScope | ProjectScope(projectId: string)

  function ProjectOf(scope: Scope): Option<string> {
    match scope
    case UserScope => None
    case ProjectScope(p) => Some(p)
  }

  /** Text, booleans and numbers are different keys even where Python calls them equal. */
  datatype Scalar = Text(text: string) | Flag(flag: bool) | Number(number: real)

  datatype Value = One(item: Scalar) | Many(items: seq<string>)

  function ItemsOf(v: Value): set<Scalar> {
    match v
    case One(item) => {item}
    case Many(items) => set x | x in items :: Text(x)
  }

  datatype Kind = PreferenceKind | DecisionKind | ObservationKind | ProcedureKind

  datatype Content =
    | Preference(key: string, value: string, applicability: map<string, seq<Scalar>>, explicit: bool)
    | Decided(decision: string, rationale: string)
    | Observed(observation: string, observedAt: int)
    | Procedure(trigger: string, steps: seq<string>)

  function KindOf(c: Content): Kind {
    match c
    case Preference(_, _, _, _) => PreferenceKind
    case Decided(_, _) => DecisionKind
    case Observed(_, _) => ObservationKind
    case Procedure(_, _) => ProcedureKind
  }

  datatype Memory = Memory(
    id: Id,
    scope: Scope,
    status: Status,
    summary: string,
    sourceRefs: seq<string>,
    metadata: map<string, Value>,
    createdAt: int,
    updatedAt: int,
    revision: int,
    supersedes: Option<Id>,
    content: Content)

  /** A position in the scan order of a store: records sort by generation, then id. */
  datatype Key = Key(generation: nat, id: Id)

  /** The sources' `if supersedes_id`: an empty string counts as absent. */
  predicate Present(id: Option<Id>) {
    id.Some? && id.value != ""
  }
}
