/** Values shared by the asset history model: identifiers, facts, and one row shape for
    the five history tables.  A table is the rows carrying its class tag. */
module HistoryRows {

  type Id = nat
  type Time = int

  datatype Option<+T> = None | Some(value: T)

  datatype State =
    | RECEIVED | IN_STOCK | CONFIGURING | READY | DEPLOYED | ON_HOLD | OUT_OF_SERVICE | RETIRED

  datatype Kind = ACTOR | LOCATION | PARTY

  /** The history classes that share one version counter per asset. */
  datatype Class = Transition | Movement | Custody | Ownership | Assignment

  /** A recorded fact; `Null` is SQL NULL.  `HalfAssignee` is an assignment target with
      exactly one of its type and identity present, which every operation refuses. */
  datatype Fact =
    | Null
    | InState(state: State)
    | Ref(id: Id)
    | Assignee(kind: Kind, target: Id)
    | HalfAssignee

  datatype Role = NONE | REVERSAL | CORRECTED

  datatype Row = Row(
    cls: Class,
    id: Id,
    version: int,
    from: Fact,
    to: Fact,
    role: Role,
    root: Option<Id>,
    pair: Option<Id>,
    generation: int,
    reason: string,
    actor: Id,
    occurredAt: Time,
    correctionAt: Option<Time>,
    evidence: Option<Id>)

  /** COALESCE(root, id): the ordinary row whose fact this row asserts or cancels. */
  function RootOf(h: Row): Id {
    if h.root.Some? then h.root.value else h.id
  }

  /** The creation witness of the three physical facts. */
  datatype Baseline = Baseline(location: Fact, custodian: Fact, owner: Fact)

  function Base(b: Baseline, k: Class): Fact {
    match k
    case Movement => b.location
    case Custody => b.custodian
    case Ownership => b.owner
    case Transition => Null
    case Assignment => Null
  }

  /** Attachments linked to the asset as disposal evidence, and those linked otherwise. */
  datatype Evidence = Evidence(linked: set<Id>, disposal: set<Id>)

  predicate NeedsDisposal(to: Fact, role: Role) {
    to == InState(RETIRED) && role != REVERSAL
  }

  /** The evidence guard on transition rows. */
  predicate EvidenceAdmitted(ev: Evidence, to: Fact, role: Role, ref: Option<Id>) {
    if NeedsDisposal(to, role) then ref.Some? && ref.value in ev.disposal
    else ref.Some? ==> ref.value in ev.linked + ev.disposal
  }

  // ----- correction reasons

  /** The whitespace that correction reasons are trimmed of. */
  predicate IsSpace(c: char) {
    var n := c as int;
    || 9 <= n < 14 || 28 <= n < 33 || n == 133 || n == 160 || n == 5760
    || 8192 <= n < 8203 || n == 8232 || n == 8233 || n == 8239 || n == 8287 || n == 12288
  }

  function TrimLeft(s: string): string {
    if s != [] && IsSpace(s[0]) then TrimLeft(s[1..]) else s
  }

  function TrimRight(s: string): string {
    if s != [] && IsSpace(s[|s| - 1]) then TrimRight(s[..|s| - 1]) else s
  }

  function Normalize(s: string): string {
    TrimRight(TrimLeft(s))
  }

  /** What the history checks demand of a stored correction reason. */
  predicate ReasonStored(s: string) {
    0 < |s| <= 4000 && s == Normalize(s)
  }

  lemma TrimLeftShape(s: string)
    ensures var t := TrimLeft(s); t == [] || !IsSpace(t[0])
  {}

  lemma TrimRightShape(s: string)
    ensures var t := TrimRight(s); t <= s && (t == [] || !IsSpace(t[|t| - 1]))
  {}

  /** Trimming is idempotent, so a reason is stored in the form the checks compare with. */
  lemma {:induction false} NormalizeIdempotent(s: string)
    ensures Normalize(Normalize(s)) == Normalize(s)
  {
    TrimLeftShape(s);
    TrimRightShape(TrimLeft(s));
  }
}
