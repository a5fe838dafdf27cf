/** The clinic's five tables and the request handlers over them. Every
    handler that takes the current user runs its role gate first; the by-id
    handlers for patients and appointments take no caller at all. */
module Clinic {
  import opened Http
  import opened Tables
  import opened Gates
  import Auth
  import PyInt

  /** The `Patient` request/response model: a patient row without its id and
      without its password. */
  datatype Patient = Patient(name: string, dateOfBirth: string, phone: string, address: string)

  /** The registration body: the patient fields plus a plain-text password. */
  datatype PatientCreate = PatientCreate(patient: Patient, password: string)

  /** A bcrypt digest of `secret`, never inspected. */
  datatype Digest = Bcrypt(secret: string)

  /** `pwd_context.hash`, a library call the model leaves abstract. */
  function Hash(secret: string): Digest {
    Bcrypt(secret)
  }

  datatype PatientRow = PatientRow(patient: Patient, password: Digest)
  datatype Doctor = Doctor(name: string, specialty: string)
  datatype Staff = Staff(name: string)
  datatype Appointment = Appointment(patientId: int, doctorId: int, appointmentTime: string, status: string)
  datatype Prescription = Prescription(patientId: int, doctorId: int, medications: string, dateIssued: string)

  /** The body `create_patient` answers with. */
  datatype Registration = Registration(id: int, accessToken: Auth.Token, tokenType: string)

  const StoreFull: Error := Uncaught("sqlite3.OperationalError")
  /** What the sqlite3 driver raises for an int parameter outside 64 bits. */
  const BindOverflow: Error := Uncaught("OverflowError")
  const PatientNotFound: Error := HttpError(404, "Patient not found")
  const DoctorNotFound: Error := HttpError(404, "Doctor not found")
  const AppointmentNotFound: Error := HttpError(404, "Appointment not found")

  /** Both ids of an appointment body fit an SQLite INTEGER parameter. */
  predicate Bindable(a: Appointment) {
    IsSqliteInteger(a.patientId) && IsSqliteInteger(a.doctorId)
  }

  /** Which appointments `GET /appointments` shows a caller: a patient its
      own, a doctor its own, every other role all of them. */
  predicate Visible(user: Auth.User, a: Appointment) {
    if user.role == "patient" then a.patientId == user.id
    else if user.role == "doctor" then a.doctorId == user.id
    else true
  }

  /** The ownership rule the by-id patient handlers were meant to enforce:
      staff, or the patient itself. */
  predicate MayAccessPatient(user: Auth.User, id: int) {
    user.role == "staff" || (user.role == "patient" && user.id == id)
  }

  /** The same rule for an appointment: staff, or one of its two parties. */
  predicate MayAccessAppointment(user: Auth.User, a: Appointment) {
    || user.role == "staff"
    || (user.role == "patient" && a.patientId == user.id)
    || (user.role == "doctor" && a.doctorId == user.id)
  }

  /** The database, with the signing key the process was configured with. */
  class Store {
    const patients: Table<PatientRow>
    const doctors: Table<Doctor>
    const staff: Table<Staff>
    const appointments: Table<Appointment>
    const prescriptions: Table<Prescription>
    const secretKey: string

    ghost predicate Valid()
      reads this, patients, doctors, staff, appointments, prescriptions
    {
      patients.Valid() && doctors.Valid() && staff.Valid() && appointments.Valid() && prescriptions.Valid()
    }

    /** `init_db()` on a fresh database file. */
    constructor (secretKey: string)
      ensures Valid()
      ensures this.secretKey == secretKey
      ensures fresh(patients) && fresh(doctors) && fresh(staff) && fresh(appointments) && fresh(prescriptions)
      ensures patients.Fresh() && doctors.Fresh() && staff.Fresh() && appointments.Fresh() && prescriptions.Fresh()
    {
      patients := new Table<PatientRow>();
      doctors := new Table<Doctor>();
      staff := new Table<Staff>();
      appointments := new Table<Appointment>();
      prescriptions := new Table<Prescription>();
      this.secretKey := secretKey;
    }

    // ---- patients ----

    /** `POST /patients`: no role check. Stores the hashed password and
        answers with the new id and a patient token for it, issued at `now`. */
    method CreatePatient(body: PatientCreate, now: int) returns (r: Result<Registration>)
      requires Valid()
      modifies patients
      ensures Valid()
      ensures old(patients.last) == MaxRowId ==> r == Err(StoreFull) && unchanged(patients)
      ensures old(patients.last) < MaxRowId ==>
        var id := old(patients.last) + 1;
        && id !in old(patients.issued)
        && patients.rows == old(patients.rows)[id := PatientRow(body.patient, Hash(body.password))]
        && patients.issued == old(patients.issued) + {id}
        && patients.last == id
        && r == Ok(Registration(id, Auth.CreateAccessToken(Auth.SubjectClaims(id, "patient"), now, secretKey), "bearer"))
    {
      var hashed := Hash(body.password);
      var id := patients.Insert(PatientRow(body.patient, hashed));
      if id.None? {
        return Err(StoreFull);
      }
      var token := Auth.CreateAccessToken(Auth.SubjectClaims(id.value, "patient"), now, secretKey);
      r := Ok(Registration(id.value, token, "bearer"));
    }

    /** `GET /patients`: staff only; every patient, without the password. */
    function GetPatients(user: Auth.User): (r: Result<seq<Patient>>)
      reads patients
      requires patients.Valid()
      ensures r.Err? <==> user.role != "staff"
      ensures r.Err? ==> r.error == NotAuthorized
      ensures r.Ok? ==>
        && |r.value| == |patients.Ids()|
        && forall i :: 0 <= i < |r.value| ==> r.value[i] == patients.rows[patients.Ids()[i]].patient
    {
      if Gate(user.role, ListPatients) == Deny then Err(NotAuthorized)
      else
        var rows := Select(patients.rows, patients.Ids());
        Ok(seq(|rows|, i requires 0 <= i < |rows| => rows[i].patient))
    }

    /** `GET /patients/{id}`: no caller, no check; an id SQLite cannot bind
        raises, otherwise 404 exactly when absent. */
    function GetPatient(id: int): (r: Result<Patient>)
      reads patients
      ensures r == Err(BindOverflow) <==> !IsSqliteInteger(id)
      ensures r == Err(PatientNotFound) <==> IsSqliteInteger(id) && id !in patients.rows
      ensures r.Ok? <==> IsSqliteInteger(id) && id in patients.rows
      ensures r.Ok? ==> r.value == patients.rows[id].patient
    {
      if !IsSqliteInteger(id) then Err(BindOverflow)
      else if id in patients.rows then Ok(patients.rows[id].patient)
      else Err(PatientNotFound)
    }

    /** `PUT /patients/{id}`: no caller, no check. The four fields become the
        body, the password stays; 404, and no change, when absent. */
    method UpdatePatient(id: int, body: Patient) returns (r: Result<Patient>)
      requires Valid()
      modifies patients`rows
      ensures Valid()
      ensures r ==
        if !IsSqliteInteger(id) then Err(BindOverflow)
        else if id in old(patients.rows) then Ok(body)
        else Err(PatientNotFound)
      ensures patients.rows ==
        if IsSqliteInteger(id) && id in old(patients.rows)
        then old(patients.rows)[id := PatientRow(body, old(patients.rows)[id].password)]
        else old(patients.rows)
    {
      if !IsSqliteInteger(id) {
        return Err(BindOverflow);
      }
      var count := patients.Update(id, (row: PatientRow) => PatientRow(body, row.password));
      if count == 0 {
        return Err(PatientNotFound);
      }
      r := Ok(body);
    }

    /** `DELETE /patients/{id}`: no caller, no check; 404 when absent. */
    method DeletePatient(id: int) returns (r: Result<string>)
      requires Valid()
      modifies patients`rows
      ensures Valid()
      ensures r ==
        if !IsSqliteInteger(id) then Err(BindOverflow)
        else if id in old(patients.rows) then Ok("Patient deleted")
        else Err(PatientNotFound)
      ensures patients.rows == old(patients.rows) - {id}
    {
      if !IsSqliteInteger(id) {
        assert id !in patients.rows;
        return Err(BindOverflow);
      }
      var count := patients.Delete(id);
      if count == 0 {
        return Err(PatientNotFound);
      }
      r := Ok("Patient deleted");
    }

    // ---- doctors ----

    /** `POST /doctors`: staff only. */
    method CreateDoctor(user: Auth.User, body: Doctor) returns (r: Result<int>)
      requires Valid()
      modifies doctors
      ensures Valid()
      ensures user.role != "staff" ==> r == Err(NotAuthorized) && unchanged(doctors)
      ensures user.role == "staff" && old(doctors.last) == MaxRowId ==> r == Err(StoreFull) && unchanged(doctors)
      ensures user.role == "staff" && old(doctors.last) < MaxRowId ==>
        && r == Ok(old(doctors.last) + 1)
        && r.value !in old(doctors.issued)
        && doctors.rows == old(doctors.rows)[r.value := body]
        && doctors.issued == old(doctors.issued) + {r.value}
        && doctors.last == r.value
    {
      if Gate(user.role, Operation.CreateDoctor) == Deny {
        return Err(NotAuthorized);
      }
      var id := doctors.Insert(body);
      r := if id.Some? then Ok(id.value) else Err(StoreFull);
    }

    /** `GET /doctors`: no caller; every doctor. */
    function GetDoctors(): (r: seq<Doctor>)
      reads doctors
      requires doctors.Valid()
      ensures |r| == |doctors.Ids()|
      ensures forall i :: 0 <= i < |r| ==> r[i] == doctors.rows[doctors.Ids()[i]]
    {
      Select(doctors.rows, doctors.Ids())
    }

    /** `GET /doctors/{id}`: no caller; an id SQLite cannot bind raises,
        otherwise 404 exactly when absent. */
    function GetDoctor(id: int): (r: Result<Doctor>)
      reads doctors
      ensures r == Err(BindOverflow) <==> !IsSqliteInteger(id)
      ensures r == Err(DoctorNotFound) <==> IsSqliteInteger(id) && id !in doctors.rows
      ensures r.Ok? <==> IsSqliteInteger(id) && id in doctors.rows
      ensures r.Ok? ==> r.value == doctors.rows[id]
    {
      if !IsSqliteInteger(id) then Err(BindOverflow)
      else if id in doctors.rows then Ok(doctors.rows[id])
      else Err(DoctorNotFound)
    }

    // ---- staff ----

    /** `POST /staff`: staff only. */
    method CreateStaff(user: Auth.User, body: Staff) returns (r: Result<int>)
      requires Valid()
      modifies staff
      ensures Valid()
      ensures user.role != "staff" ==> r == Err(NotAuthorized) && unchanged(staff)
      ensures user.role == "staff" && old(staff.last) == MaxRowId ==> r == Err(StoreFull) && unchanged(staff)
      ensures user.role == "staff" && old(staff.last) < MaxRowId ==>
        && r == Ok(old(staff.last) + 1)
        && r.value !in old(staff.issued)
        && staff.rows == old(staff.rows)[r.value := body]
        && staff.issued == old(staff.issued) + {r.value}
        && staff.last == r.value
    {
      if Gate(user.role, Operation.CreateStaff) == Deny {
        return Err(NotAuthorized);
      }
      var id := staff.Insert(body);
      r := if id.Some? then Ok(id.value) else Err(StoreFull);
    }

    // ---- appointments ----

    /** The ids `GET /appointments` lists for `user`, ascending. */
    function VisibleAppointmentIds(user: Auth.User): (ids: seq<int>)
      reads appointments
      requires appointments.Valid()
      ensures Increasing(ids)
      ensures user.role == "patient" ==>
        forall k :: k in ids <==> k in appointments.rows && appointments.rows[k].patientId == user.id
      ensures user.role == "doctor" ==>
        forall k :: k in ids <==> k in appointments.rows && appointments.rows[k].doctorId == user.id
      ensures user.role != "patient" && user.role != "doctor" ==>
        forall k :: k in ids <==> k in appointments.rows
    {
      IdsWhere(appointments.rows, appointments.last, (a: Appointment) => Visible(user, a))
    }

    /** `GET /appointments`: the caller's visible appointments, by id. A
        patient or doctor whose id SQLite cannot bind makes the query raise. */
    function GetAppointments(user: Auth.User): (r: Result<seq<Appointment>>)
      reads appointments
      requires appointments.Valid()
      ensures r.Err? <==> (user.role == "patient" || user.role == "doctor") && !IsSqliteInteger(user.id)
      ensures r.Err? ==> r.error == BindOverflow
      ensures r.Ok? ==>
        && |r.value| == |VisibleAppointmentIds(user)|
        && forall i :: 0 <= i < |r.value| ==>
             r.value[i] == appointments.rows[VisibleAppointmentIds(user)[i]] && Visible(user, r.value[i])
    {
      if (user.role == "patient" || user.role == "doctor") && !IsSqliteInteger(user.id) then Err(BindOverflow)
      else Ok(Select(appointments.rows, VisibleAppointmentIds(user)))
    }

    /** `GET /appointments/{id}`: no caller, no check; an id SQLite cannot
        bind raises, otherwise 404 exactly when absent. */
    function GetAppointment(id: int): (r: Result<Appointment>)
      reads appointments
      ensures r == Err(BindOverflow) <==> !IsSqliteInteger(id)
      ensures r == Err(AppointmentNotFound) <==> IsSqliteInteger(id) && id !in appointments.rows
      ensures r.Ok? <==> IsSqliteInteger(id) && id in appointments.rows
      ensures r.Ok? ==> r.value == appointments.rows[id]
    {
      if !IsSqliteInteger(id) then Err(BindOverflow)
      else if id in appointments.rows then Ok(appointments.rows[id])
      else Err(AppointmentNotFound)
    }

    /** `POST /appointments`: patients and staff. The body's `patient_id` is
        stored as given, never compared with the caller's id; only a value
        SQLite cannot bind is refused, by the driver. */
    method CreateAppointment(user: Auth.User, body: Appointment) returns (r: Result<int>)
      requires Valid()
      modifies appointments
      ensures Valid()
      ensures user.role != "patient" && user.role != "staff" ==> r == Err(NotAuthorized) && unchanged(appointments)
      ensures (user.role == "patient" || user.role == "staff") && !Bindable(body) ==>
        r == Err(BindOverflow) && unchanged(appointments)
      ensures (user.role == "patient" || user.role == "staff") && Bindable(body) && old(appointments.last) == MaxRowId ==>
        r == Err(StoreFull) && unchanged(appointments)
      ensures (user.role == "patient" || user.role == "staff") && Bindable(body) && old(appointments.last) < MaxRowId ==>
        && r == Ok(old(appointments.last) + 1)
        && r.value !in old(appointments.issued)
        && appointments.rows == old(appointments.rows)[r.value := body]
        && appointments.issued == old(appointments.issued) + {r.value}
        && appointments.last == r.value
    {
      if Gate(user.role, Operation.CreateAppointment) == Deny {
        return Err(NotAuthorized);
      }
      if !Bindable(body) {
        return Err(BindOverflow);
      }
      var id := appointments.Insert(body);
      r := if id.Some? then Ok(id.value) else Err(StoreFull);
    }

    /** `PUT /appointments/{id}`: no caller, no check; the row becomes the
        body, which is echoed; 404, and no change, when absent. */
    method UpdateAppointment(id: int, body: Appointment) returns (r: Result<Appointment>)
      requires Valid()
      modifies appointments`rows
      ensures Valid()
      ensures r ==
        if !IsSqliteInteger(id) || !Bindable(body) then Err(BindOverflow)
        else if id in old(appointments.rows) then Ok(body)
        else Err(AppointmentNotFound)
      ensures appointments.rows ==
        if IsSqliteInteger(id) && Bindable(body) && id in old(appointments.rows)
        then old(appointments.rows)[id := body]
        else old(appointments.rows)
    {
      if !IsSqliteInteger(id) || !Bindable(body) {
        return Err(BindOverflow);
      }
      var count := appointments.Update(id, (_: Appointment) => body);
      if count == 0 {
        return Err(AppointmentNotFound);
      }
      r := Ok(body);
    }

    /** `DELETE /appointments/{id}`: no caller, no check; 404 when absent. */
    method DeleteAppointment(id: int) returns (r: Result<string>)
      requires Valid()
      modifies appointments`rows
      ensures Valid()
      ensures r ==
        if !IsSqliteInteger(id) then Err(BindOverflow)
        else if id in old(appointments.rows) then Ok("Appointment deleted")
        else Err(AppointmentNotFound)
      ensures appointments.rows == old(appointments.rows) - {id}
    {
      if !IsSqliteInteger(id) {
        assert id !in appointments.rows;
        return Err(BindOverflow);
      }
      var count := appointments.Delete(id);
      if count == 0 {
        return Err(AppointmentNotFound);
      }
      r := Ok("Appointment deleted");
    }

    // ---- prescriptions ----

    /** `POST /prescriptions`: doctors only. */
    method CreatePrescription(user: Auth.User, body: Prescription) returns (r: Result<int>)
      requires Valid()
      modifies prescriptions
      ensures Valid()
      ensures user.role != "doctor" ==> r == Err(NotAuthorized) && unchanged(prescriptions)
      ensures user.role == "doctor" && !(IsSqliteInteger(body.patientId) && IsSqliteInteger(body.doctorId)) ==>
        r == Err(BindOverflow) && unchanged(prescriptions)
      ensures user.role == "doctor" && IsSqliteInteger(body.patientId) && IsSqliteInteger(body.doctorId)
              && old(prescriptions.last) == MaxRowId ==>
        r == Err(StoreFull) && unchanged(prescriptions)
      ensures user.role == "doctor" && IsSqliteInteger(body.patientId) && IsSqliteInteger(body.doctorId)
              && old(prescriptions.last) < MaxRowId ==>
        && r == Ok(old(prescriptions.last) + 1)
        && r.value !in old(prescriptions.issued)
        && prescriptions.rows == old(prescriptions.rows)[r.value := body]
        && prescriptions.issued == old(prescriptions.issued) + {r.value}
        && prescriptions.last == r.value
    {
      if Gate(user.role, Operation.CreatePrescription) == Deny {
        return Err(NotAuthorized);
      }
      if !(IsSqliteInteger(body.patientId) && IsSqliteInteger(body.doctorId)) {
        return Err(BindOverflow);
      }
      var id := prescriptions.Insert(body);
      r := if id.Some? then Ok(id.value) else Err(StoreFull);
    }
  }

  // ---- the ownership rule against the handlers ----

  /** `GET /patients/{id}` breaks the ownership rule as soon as one patient
      exists: some caller who may not see the row still receives it. The
      handler reads no caller at all, so the user quantified over here is
      one it never looks at. */
  lemma GetPatientBreaksOwnership(s: Store, id: int)
    requires s.patients.Valid()
    requires id in s.patients.rows
    ensures !(forall user: Auth.User :: s.GetPatient(id).Ok? ==> MayAccessPatient(user, id))
  {
    var intruder := Auth.User(id + 1, "patient");
    assert IsSqliteInteger(id);
    assert s.GetPatient(id).Ok? && !MayAccessPatient(intruder, id);
  }

  /** Likewise `GET /appointments/{id}`: a patient who is not the
      appointment's patient still receives it. */
  lemma GetAppointmentBreaksOwnership(s: Store, id: int)
    requires s.appointments.Valid()
    requires id in s.appointments.rows
    ensures !(forall user: Auth.User :: s.GetAppointment(id).Ok? ==>
                MayAccessAppointment(user, s.GetAppointment(id).value))
  {
    var a := s.appointments.rows[id];
    var intruder := Auth.User(a.patientId + 1, "patient");
    assert IsSqliteInteger(id);
    assert s.GetAppointment(id).Ok? && !MayAccessAppointment(intruder, a);
  }

  /** The listing, in contrast, keeps the rule for the three named roles. */
  lemma ListingRespectsOwnership(s: Store, user: Auth.User)
    requires s.appointments.Valid()
    requires user.role in {"patient", "doctor", "staff"}
    ensures s.GetAppointments(user).Ok? ==>
      forall a :: a in s.GetAppointments(user).value ==> MayAccessAppointment(user, a)
  {
    var r := s.GetAppointments(user);
    if r.Ok? {
      forall a | a in r.value ensures MayAccessAppointment(user, a) {
        var i :| 0 <= i < |r.value| && r.value[i] == a;
        assert Visible(user, r.value[i]);
      }
    }
  }

  /** Any role other than "patient" and "doctor", including one that is not a
      role at all, is shown the whole table, as the staff branch is. */
  lemma OtherRolesSeeEveryAppointment(s: Store, user: Auth.User)
    requires s.appointments.Valid()
    requires user.role != "patient" && user.role != "doctor"
    ensures s.GetAppointments(user) == Ok(Select(s.appointments.rows, s.appointments.Ids()))
  {
    IncreasingUnique(s.VisibleAppointmentIds(user), s.appointments.Ids());
  }

  /** The token a patient registers with authenticates as that patient
      until it expires, and that caller is refused the patient listing. */
  lemma RegisteredPatientCannotListPatients(s: Store, id: int, issued: int, now: int)
    requires s.patients.Valid()
    requires 1 <= id <= MaxRowId
    requires now < issued + Auth.AccessTokenExpireSeconds
    ensures
      var token := Auth.CreateAccessToken(Auth.SubjectClaims(id, "patient"), issued, s.secretKey);
      var caller := Auth.GetCurrentUser(token, s.secretKey, now);
      caller == Ok(Auth.User(id, "patient")) && s.GetPatients(caller.value) == Err(NotAuthorized)
  {
    PyInt.Int64DigitsFit(id);
    Auth.TokenRoundTrip(id, "patient", issued, s.secretKey, now);
  }

  /** Registering "Alice" gives id 1; staff then see her without a password,
      a patient is refused the listing. */
  method RegisterThenList(key: string)
  {
    var store := new Store(key);
    var alice := Patient("Alice", "1990-01-01", "555-0100", "1 Main St");
    var registered := store.CreatePatient(PatientCreate(alice, "secret"), 0);
    assert registered.Ok? && registered.value.id == 1;
    assert store.patients.rows.Keys == {1};
    store.patients.IdsOfOne(1);
    var listed := store.GetPatients(Auth.User(7, "staff"));
    assert listed.Ok? && |listed.value| == 1 && listed.value[0] == alice;
    assert listed.value == [alice];
    assert store.GetPatients(Auth.User(1, "patient")) == Err(NotAuthorized);
  }

  /** Patient 1 books with doctor 2: both see exactly that appointment,
      patient 3 sees none. */
  method BookThenList(key: string)
  {
    var store := new Store(key);
    var visit := Appointment(1, 2, "2024-05-01T09:00", "scheduled");
    var booked := store.CreateAppointment(Auth.User(1, "patient"), visit);
    assert booked == Ok(1);
    assert store.VisibleAppointmentIds(Auth.User(1, "patient")) == [1] by {
      IncreasingUnique(store.VisibleAppointmentIds(Auth.User(1, "patient")), [1]);
    }
    assert store.VisibleAppointmentIds(Auth.User(2, "doctor")) == [1] by {
      IncreasingUnique(store.VisibleAppointmentIds(Auth.User(2, "doctor")), [1]);
    }
    assert store.VisibleAppointmentIds(Auth.User(3, "patient")) == [] by {
      IncreasingUnique(store.VisibleAppointmentIds(Auth.User(3, "patient")), []);
    }
    assert IsSqliteInteger(1) && IsSqliteInteger(2) && IsSqliteInteger(3);
    var mine := store.GetAppointments(Auth.User(1, "patient"));
    assert mine.Ok? && |mine.value| == 1 && mine.value[0] == visit;
    assert mine.value == [visit];
    var theirs := store.GetAppointments(Auth.User(2, "doctor"));
    assert theirs.Ok? && |theirs.value| == 1 && theirs.value[0] == visit;
    assert theirs.value == [visit];
    assert store.GetAppointments(Auth.User(3, "patient")) == Ok([]);
  }

  /** Staff add a doctor, who is then fetched by id; the next id is a 404
      and an id past 64 bits raises. */
  method HireThenFetch(key: string)
  {
    var store := new Store(key);
    var house := Doctor("House", "diagnostics");
    var hired := store.CreateDoctor(Auth.User(1, "staff"), house);
    assert hired == Ok(1);
    assert store.GetDoctor(1) == Ok(house);
    assert store.GetDoctor(2) == Err(DoctorNotFound);
    assert store.GetDoctor(MaxRowId + 1) == Err(BindOverflow);
  }

  /** Deleting the same patient twice: the second time is a 404. */
  method DeleteTwice(key: string)
  {
    var store := new Store(key);
    var alice := Patient("Alice", "1990-01-01", "555-0100", "1 Main St");
    var registered := store.CreatePatient(PatientCreate(alice, "secret"), 0);
    var first := store.DeletePatient(1);
    var second := store.DeletePatient(1);
    assert first == Ok("Patient deleted") && second == Err(PatientNotFound);
  }
}
