/** The per-endpoint role checks: each handler that depends on the current
    user compares its role string with fixed names before touching a table. */
module Gates {

  /** The endpoints, one per handler. */
  datatype Operation =
    | RegisterPatient | ListPatients | ReadPatient | UpdatePatient | DeletePatient
    | CreateDoctor | ListDoctors | ReadDoctor
    | CreateStaff
    | ListAppointments | ReadAppointment | CreateAppointment | UpdateAppointment | DeleteAppointment
    | CreatePrescription

  datatype Decision = Allow | Deny  // Deny is answered with 403 "Not authorized"

  /** The handlers that take the current user, and so need a valid token. */
  predicate NeedsToken(op: Operation) {
    op in {ListPatients, CreateDoctor, CreateStaff, ListAppointments, CreateAppointment, CreatePrescription}
  }

  /** The operations only the role "staff" may perform. */
  predicate StaffOnly(op: Operation) {
    op in {ListPatients, CreateDoctor, CreateStaff}
  }

  /** The role check a handler makes before it reads or writes. */
  function Gate(role: string, op: Operation): (d: Decision)
    ensures StaffOnly(op) ==> (d == Allow <==> role == "staff")
    ensures op == CreatePrescription ==> (d == Allow <==> role == "doctor")
    ensures op == CreateAppointment ==> (d == Allow <==> role == "patient" || role == "staff")
    ensures d == Deny ==> NeedsToken(op)
  {
    match op
    case ListPatients | CreateDoctor | CreateStaff =>
      if role != "staff" then Deny else Allow
    case CreateAppointment =>
      if role !in ["patient", "staff"] then Deny else Allow
    case CreatePrescription =>
      if role != "doctor" then Deny else Allow
    case _ => Allow
  }

  /** Whatever the role, an operation without a role check is allowed, and
      so are the by-id reads, updates and deletes of patients and
      appointments. This is a fact about the decision table only: the
      handlers for these operations take no caller and never consult
      `Gate`, so that they treat every caller alike rests on their
      signatures. */
  lemma UngatedForEveryRole(role: string, other: string, op: Operation)
    requires op !in {ListPatients, CreateDoctor, CreateStaff, CreateAppointment, CreatePrescription}
    ensures Gate(role, op) == Allow && Gate(role, op) == Gate(other, op)
  {
  }

  /** No role passes every gate: prescriptions are for doctors alone, so even
      "staff" is refused one operation. */
  lemma NoRolePassesEveryGate(role: string)
    ensures Gate(role, CreatePrescription) == Deny || Gate(role, CreateDoctor) == Deny
  {
  }

  /** A role outside patient/doctor/staff passes only the ungated handlers. */
  lemma UnknownRoleGated(role: string, op: Operation)
    requires role !in {"patient", "doctor", "staff"}
    ensures Gate(role, op) == Allow <==>
            op !in {ListPatients, CreateDoctor, CreateStaff, CreateAppointment, CreatePrescription}
  {
  }
}
