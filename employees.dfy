/** The employee table: reconciling a backend record that may use Spanish or
    English keys onto one field set, building the write payloads that carry
    each field under both names, the search filter, the age column, and the
    handlers that drive the employee hook and the table's own modal state. */
module Employees {
  import opened Fields
  import opened Js
  import opened Rest
  import opened RecordLists
  import opened DataHooks

  /** The six fields the frontend names in Spanish and the backend in English. */
  predicate IsDual(k: Key) {
    k.Nombre? || k.Apellido? || k.FechaNacimiento? || k.Direccion? || k.Telefono? || k.FechaContratacion?
  }

  /** The fields both sides name alike and that the payloads carry once. */
  predicate IsShared(k: Key) {
    k.Email? || k.Password? || k.Dui?
  }

  /** The backend's names of the dual fields. */
  predicate IsEnglish(k: Key) {
    k.Name? || k.LastName? || k.Birthday? || k.Address? || k.Telephone? || k.HireDate?
  }

  /** The backend's name for a dual field. */
  function EnglishOf(k: Key): (e: Key)
    requires IsDual(k)
    ensures IsEnglish(e) && FormKeyOf(e) == k
  {
    match k
    case Nombre => Name
    case Apellido => LastName
    case FechaNacimiento => Birthday
    case Direccion => Address
    case Telefono => Telephone
    case FechaContratacion => HireDate
  }

  /** What a dual field shows when neither name holds a truthy value: `null`
      for the two dates, `''` for the rest. */
  function FallbackOf(k: Key): (v: Value)
    requires IsDual(k)
    ensures !Truthy(v) && v != Undefined
  {
    if k.FechaNacimiento? || k.FechaContratacion? then Null else Str("")
  }

  /** `emp.spanish || emp.english || fallback`. */
  function Reconciled(emp: Record, k: Key): Value
    requires IsDual(k)
  {
    Or(Get(emp, k), Or(Get(emp, EnglishOf(k)), FallbackOf(k)))
  }

  /** `r` is what `spanish || english || fallback` picks. */
  predicate PicksFirstTruthy(r: Value, spanish: Value, english: Value, fallback: Value) {
    && (Truthy(spanish) ==> r == spanish)
    && (!Truthy(spanish) && Truthy(english) ==> r == english)
    && (!Truthy(spanish) && !Truthy(english) ==> r == fallback)
  }

  /** The keys the detail view rewrites; every other key is kept as it came. */
  const DetailKeys: set<Key> := {
    Nombre, Apellido, FechaNacimiento, Direccion, Telefono, FechaContratacion, Issnumber, IsVerified
  }

  /** One rewritten field of the detail view: the dual fields reconciled,
      `issnumber || ''`, and `isVerified` kept unless it is `undefined`. */
  function DetailField(emp: Record, k: Key): Value {
    if IsDual(k) then Reconciled(emp, k)
    else if k == Issnumber then Or(Get(emp, Issnumber), Str(""))
    else if Get(emp, IsVerified) != Undefined then Get(emp, IsVerified)
    else Bool(false)
  }

  /** `{ ...emp, nombre: emp.nombre || emp.name || '', ... }` as the detail modal
      builds it: the spread keeps every key of `emp`, the eight listed keys
      override it. */
  function DetailView(emp: Record): Record {
    map k | k in emp.Keys + DetailKeys :: if k in DetailKeys then DetailField(emp, k) else emp[k]
  }

  /** The detail view has every key of `emp` and the eight listed ones. */
  lemma DetailViewKeys(emp: Record)
    ensures DetailView(emp).Keys == emp.Keys + DetailKeys
  {
  }

  /** A listed key shows its rewritten value. */
  lemma DetailViewAt(emp: Record, k: Key)
    requires k in DetailKeys
    ensures DetailView(emp)[k] == DetailField(emp, k)
  {
  }

  /** A key the detail view does not list keeps the value it came with, and an
      absent one stays absent. */
  lemma DetailViewKeepsOthers(emp: Record, k: Key)
    requires k !in DetailKeys
    ensures Get(DetailView(emp), k) == Get(emp, k)
  {
  }

  /** A dual field shows the Spanish value if truthy, else the English one if
      truthy, else its fallback. */
  lemma DetailViewPrecedence(emp: Record, k: Key)
    requires IsDual(k)
    ensures PicksFirstTruthy(DetailView(emp)[k], Get(emp, k), Get(emp, EnglishOf(k)), FallbackOf(k))
  {
    DetailViewAt(emp, k);
  }

  /** `issnumber` falls back to `''`. */
  lemma DetailViewIssnumber(emp: Record)
    ensures PicksFirstTruthy(DetailView(emp)[Issnumber], Get(emp, Issnumber), Undefined, Str(""))
  {
    DetailViewAt(emp, Issnumber);
  }

  /** `isVerified` is kept whenever it is defined, even when it is falsy, and is
      `false` otherwise. */
  lemma DetailViewIsVerified(emp: Record)
    ensures Get(emp, IsVerified) != Undefined ==> DetailView(emp)[IsVerified] == emp[IsVerified]
    ensures Get(emp, IsVerified) == Undefined ==> DetailView(emp)[IsVerified] == Bool(false)
  {
    DetailViewAt(emp, IsVerified);
    assert !IsDual(IsVerified);
  }

  /** The listed keys are the dual fields, `issnumber` and `isVerified`. */
  lemma DetailKeysListed(k: Key)
    ensures k in DetailKeys <==> IsDual(k) || k == Issnumber || k == IsVerified
  {
  }

  /** A reconciled dual field is never `undefined`. */
  lemma ReconciledDefined(emp: Record, k: Key)
    requires IsDual(k)
    ensures Reconciled(emp, k) != Undefined
  {
  }

  /** The detail modal never shows `undefined` in a field it lists. */
  lemma DetailViewDefined(emp: Record, k: Key)
    requires k in DetailKeys
    ensures DetailView(emp)[k] != Undefined
  {
    DetailViewAt(emp, k);
    DetailKeysListed(k);
    if IsDual(k) {
      ReconciledDefined(emp, k);
    }
  }

  /** Rewriting a listed field of an already reconciled record gives the same value. */
  lemma DetailFieldStable(emp: Record, k: Key)
    requires k in DetailKeys
    ensures DetailField(DetailView(emp), k) == DetailField(emp, k)
  {
    var d := DetailView(emp);
    DetailKeysListed(k);
    DetailViewAt(emp, k);
    if IsDual(k) {
      var e := EnglishOf(k);
      DetailKeysListed(e);
      DetailViewKeepsOthers(emp, e);
      assert Get(d, k) == Reconciled(emp, k);
      OrDefaultStable(Get(emp, k), Get(emp, e), FallbackOf(k));
    } else if k == Issnumber {
      OrDefaultStable(Get(emp, Issnumber), Undefined, Str(""));
    } else {
      DetailViewDefined(emp, IsVerified);
    }
  }

  /** Reconciling an already reconciled record changes nothing. */
  lemma DetailViewIdempotent(emp: Record)
    ensures DetailView(DetailView(emp)) == DetailView(emp)
  {
    var d := DetailView(emp);
    var dd := DetailView(d);
    forall k | k in dd
      ensures dd[k] == d[k]
    {
      if k in DetailKeys {
        DetailViewAt(d, k);
        DetailViewAt(emp, k);
        DetailFieldStable(emp, k);
      } else {
        DetailViewKeepsOthers(d, k);
      }
    }
    assert dd.Keys == d.Keys;
  }

  /** The keys of the edit form. */
  const EditFormKeys: set<Key> := {
    Nombre, Apellido, FechaNacimiento, Email, Direccion, Password,
    Telefono, Dui, FechaContratacion, Issnumber, IsVerified
  }

  lemma EditFormKeysListed(k: Key)
    ensures k in EditFormKeys <==> IsDual(k) || IsShared(k) || k == Issnumber || k == IsVerified
  {
  }

  /** One field of the edit form: the dual fields reconciled, `isVerified ||
      false`, and `x || ''` for the single-named text fields. */
  function EditField(emp: Record, k: Key): Value {
    if IsDual(k) then Reconciled(emp, k)
    else if k == IsVerified then Or(Get(emp, IsVerified), Bool(false))
    else Or(Get(emp, k), Str(""))
  }

  /** The edit form as the effect on `editEmployee` fills it: exactly the
      eleven listed keys, each filled by `EditField`. */
  function EditFormOf(emp: Record): Record {
    map k | k in EditFormKeys :: EditField(emp, k)
  }

  /** The edit form has exactly the eleven listed keys, whatever `emp` holds. */
  lemma EditFormKeysExact(emp: Record)
    ensures EditFormOf(emp).Keys == EditFormKeys
  {
  }

  lemma EditFormAt(emp: Record, k: Key)
    requires k in EditFormKeys
    ensures EditFormOf(emp)[k] == EditField(emp, k)
  {
  }

  /** A dual field is filled with the same precedence as in the detail view. */
  lemma EditFormPrecedence(emp: Record, k: Key)
    requires IsDual(k)
    ensures PicksFirstTruthy(EditFormOf(emp)[k], Get(emp, k), Get(emp, EnglishOf(k)), FallbackOf(k))
  {
    EditFormAt(emp, k);
  }

  /** The single-named text fields fall back to `''`. */
  lemma EditFormText(emp: Record, k: Key)
    requires IsShared(k) || k == Issnumber
    ensures PicksFirstTruthy(EditFormOf(emp)[k], Get(emp, k), Undefined, Str(""))
  {
    EditFormAt(emp, k);
  }

  /** `isVerified || false`. */
  lemma EditFormIsVerified(emp: Record)
    ensures PicksFirstTruthy(EditFormOf(emp)[IsVerified], Get(emp, IsVerified), Undefined, Bool(false))
  {
    EditFormAt(emp, IsVerified);
  }

  /** The edit form and the detail view agree on every reconciled field and on
      `issnumber`. */
  lemma EditFormAgreesWithDetail(emp: Record, k: Key)
    requires IsDual(k) || k == Issnumber
    ensures EditFormOf(emp)[k] == DetailView(emp)[k]
  {
    EditFormAt(emp, k);
    DetailViewAt(emp, k);
  }

  /** On `isVerified` they agree exactly when it is not a falsy value other than
      `false`: the detail view keeps a `null`, the edit form turns it into `false`. */
  lemma EditFormIsVerifiedAgrees(emp: Record)
    ensures EditFormOf(emp)[IsVerified] == DetailView(emp)[IsVerified] <==>
      var v := Get(emp, IsVerified); Truthy(v) || v == Undefined || v == Bool(false)
  {
    EditFormAt(emp, IsVerified);
    DetailViewAt(emp, IsVerified);
  }

  /** The blank create form the table starts with: nine fields. */
  const InitialForm: Record := map[
    Nombre := Str(""), Apellido := Str(""), FechaNacimiento := Null,
    Email := Str(""), Direccion := Str(""), Password := Str(""),
    Telefono := Str(""), Dui := Str(""), FechaContratacion := Null
  ]

  /** The blank create form after a successful create: the nine fields plus
      `issnumber` and `isVerified`. */
  const ResetForm: Record := InitialForm[Issnumber := Str("")][IsVerified := Bool(false)]

  /** The keys of the create and update payloads: every dual field under both
      names, the shared fields, `issnumber` and `isVerified`. */
  const PayloadKeys: set<Key> := {
    Name, LastName, Birthday, Email, Address, Password, Telephone,
    Dui, HireDate, Issnumber, IsVerified,
    Nombre, Apellido, FechaNacimiento, Direccion, Telefono, FechaContratacion
  }

  lemma PayloadKeysListed(k: Key)
    ensures k in PayloadKeys <==>
      IsDual(k) || IsEnglish(k) || IsShared(k) || k == Issnumber || k == IsVerified
  {
  }

  /** The form field a payload key copies: an English key copies its Spanish
      counterpart, every other key copies itself. */
  function FormKeyOf(k: Key): Key {
    match k
    case Name => Nombre
    case LastName => Apellido
    case Birthday => FechaNacimiento
    case Address => Direccion
    case Telephone => Telefono
    case HireDate => FechaContratacion
    case _ => k
  }

  /** One field of the create payload: `issnumber || ''`, `isVerified || false`,
      and otherwise the form field the key copies. */
  function CreateField(form: Record, k: Key): Value {
    if k == Issnumber then Or(Get(form, Issnumber), Str(""))
    else if k == IsVerified then Or(Get(form, IsVerified), Bool(false))
    else Get(form, FormKeyOf(k))
  }

  /** The payload `handleCreate` sends: `name: form.nombre`, …, `nombre:
      form.nombre`, …: exactly the seventeen listed keys. */
  function CreatePayload(form: Record): Record {
    map k | k in PayloadKeys :: CreateField(form, k)
  }

  /** The payload `handleUpdate` sends: the same layout, with `issnumber` and
      `isVerified` copied as they are. */
  function UpdatePayload(form: Record): Record {
    map k | k in PayloadKeys :: Get(form, FormKeyOf(k))
  }

  /** Both payloads have exactly the seventeen listed keys. */
  lemma PayloadKeysExact(form: Record)
    ensures CreatePayload(form).Keys == PayloadKeys && UpdatePayload(form).Keys == PayloadKeys
  {
  }

  /** Both payloads carry each dual field's form value under both its names. */
  lemma PayloadDualFields(form: Record, k: Key)
    requires IsDual(k)
    ensures CreatePayload(form)[k] == Get(form, k) && CreatePayload(form)[EnglishOf(k)] == Get(form, k)
    ensures UpdatePayload(form)[k] == Get(form, k) && UpdatePayload(form)[EnglishOf(k)] == Get(form, k)
  {
    PayloadKeysListed(k);
    PayloadKeysListed(EnglishOf(k));
  }

  /** Both payloads copy `email`, `password` and `dui` as they are. */
  lemma PayloadSharedFields(form: Record, k: Key)
    requires IsShared(k)
    ensures CreatePayload(form)[k] == Get(form, k) && UpdatePayload(form)[k] == Get(form, k)
  {
    PayloadKeysListed(k);
  }

  /** The create payload defaults `issnumber` to `''` and `isVerified` to
      `false`; the update payload copies both as they are. */
  lemma PayloadFlags(form: Record)
    ensures PicksFirstTruthy(CreatePayload(form)[Issnumber], Get(form, Issnumber), Undefined, Str(""))
    ensures PicksFirstTruthy(CreatePayload(form)[IsVerified], Get(form, IsVerified), Undefined, Bool(false))
    ensures UpdatePayload(form)[Issnumber] == Get(form, Issnumber)
    ensures UpdatePayload(form)[IsVerified] == Get(form, IsVerified)
  {
  }

  /** The two payloads differ only in the defaults the create payload applies, so
      they coincide on a form that already holds truthy values there. */
  lemma CreateIsUpdateWithDefaults(form: Record)
    ensures CreatePayload(form) == UpdatePayload(form)
      [Issnumber := Or(Get(form, Issnumber), Str(""))]
      [IsVerified := Or(Get(form, IsVerified), Bool(false))]
    ensures Truthy(Get(form, Issnumber)) && Truthy(Get(form, IsVerified)) ==>
      CreatePayload(form) == UpdatePayload(form)
  {
    var c, u := CreatePayload(form), UpdatePayload(form);
    var ud := u[Issnumber := Or(Get(form, Issnumber), Str(""))]
              [IsVerified := Or(Get(form, IsVerified), Bool(false))];
    assert Issnumber in u && IsVerified in u;
    forall k | k in c
      ensures k in ud && c[k] == ud[k]
    {
      if k != Issnumber && k != IsVerified {
        assert c[k] == Get(form, FormKeyOf(k)) == u[k];
      }
    }
    assert c.Keys == ud.Keys;
    if Truthy(Get(form, Issnumber)) && Truthy(Get(form, IsVerified)) {
      assert ud == u;
    }
  }

  /** A payload key other than the two flags copies a form field other than the
      two flags. */
  lemma FormKeyOfAvoidsFlags(k: Key)
    requires k != Issnumber && k != IsVerified
    ensures FormKeyOf(k) != Issnumber && FormKeyOf(k) != IsVerified
  {
  }

  /** One field of the create payload of a form with falsy flags, against the
      form with `''` and `false` there. */
  lemma CreateFieldFalsyFlags(form: Record, k: Key)
    requires !Truthy(Get(form, Issnumber)) && !Truthy(Get(form, IsVerified))
    ensures CreateField(form[Issnumber := Str("")][IsVerified := Bool(false)], k) == CreateField(form, k)
  {
    var reset := form[Issnumber := Str("")][IsVerified := Bool(false)];
    if k == Issnumber {
      assert Get(reset, Issnumber) == Str("");
    } else if k == IsVerified {
      assert Get(reset, IsVerified) == Bool(false);
    } else {
      var j := FormKeyOf(k);
      FormKeyOfAvoidsFlags(k);
      assert Get(reset, j) == Get(form, j);
    }
  }

  /** The create payload sees `issnumber` and `isVerified` only through their
      defaults: a form holding falsy values there submits what the form with
      `''` and `false` submits. */
  lemma CreatePayloadFalsyFlags(form: Record)
    requires !Truthy(Get(form, Issnumber)) && !Truthy(Get(form, IsVerified))
    ensures CreatePayload(form[Issnumber := Str("")][IsVerified := Bool(false)]) == CreatePayload(form)
  {
    var p, q := CreatePayload(form[Issnumber := Str("")][IsVerified := Bool(false)]), CreatePayload(form);
    forall k | k in p
      ensures p[k] == q[k]
    {
      CreateFieldFalsyFlags(form, k);
    }
    assert p.Keys == q.Keys;
  }

  /** The form the table starts with and the form it resets to after a create
      differ in their keys but submit the same payload. */
  lemma InitialAndResetFormsSubmitAlike()
    ensures InitialForm != ResetForm
    ensures CreatePayload(InitialForm) == CreatePayload(ResetForm)
  {
    assert Issnumber !in InitialForm && Issnumber in ResetForm;
    CreatePayloadFalsyFlags(InitialForm);
  }

  /** No field is silently dropped: reading a create payload back through the
      detail view yields each dual field's form value, or its fallback. */
  lemma PayloadReadsBack(form: Record, k: Key)
    requires IsDual(k)
    ensures DetailView(CreatePayload(form))[k] == Or(Get(form, k), FallbackOf(k))
  {
    var p := CreatePayload(form);
    PayloadDualFields(form, k);
    DetailViewAt(p, k);
  }

  /** A dual field of the edit form survives the round trip. */
  lemma EditFormRoundTripDual(emp: Record, k: Key)
    requires IsDual(k)
    ensures EditFormOf(UpdatePayload(EditFormOf(emp)))[k] == EditFormOf(emp)[k]
  {
    var f := EditFormOf(emp);
    var u := UpdatePayload(f);
    EditFormAt(u, k);
    EditFormAt(emp, k);
    PayloadDualFields(f, k);
    OrDefaultStable(Get(emp, k), Get(emp, EnglishOf(k)), FallbackOf(k));
  }

  /** A shared field of the edit form survives the round trip. */
  lemma EditFormRoundTripShared(emp: Record, k: Key)
    requires IsShared(k)
    ensures EditFormOf(UpdatePayload(EditFormOf(emp)))[k] == EditFormOf(emp)[k]
  {
    var f := EditFormOf(emp);
    var u := UpdatePayload(f);
    EditFormKeysListed(k);
    PayloadKeysListed(k);
    var v := Or(Get(emp, k), Str(""));
    assert f[k] == v;
    assert u[k] == v;
    OrDefaultStable(Get(emp, k), Undefined, Str(""));
    assert EditFormOf(u)[k] == Or(v, Str(""));
  }

  /** `issnumber` survives the round trip. */
  lemma EditFormRoundTripIssnumber(emp: Record)
    ensures EditFormOf(UpdatePayload(EditFormOf(emp)))[Issnumber] == EditFormOf(emp)[Issnumber]
  {
    var f := EditFormOf(emp);
    var u := UpdatePayload(f);
    PayloadFlags(f);
    var v := Or(Get(emp, Issnumber), Str(""));
    assert f[Issnumber] == v;
    assert u[Issnumber] == v;
    OrDefaultStable(Get(emp, Issnumber), Undefined, Str(""));
    assert EditFormOf(u)[Issnumber] == Or(v, Str(""));
  }

  /** `isVerified` survives the round trip. */
  lemma EditFormRoundTripIsVerified(emp: Record)
    ensures EditFormOf(UpdatePayload(EditFormOf(emp)))[IsVerified] == EditFormOf(emp)[IsVerified]
  {
    var f := EditFormOf(emp);
    var u := UpdatePayload(f);
    PayloadFlags(f);
    var v := Or(Get(emp, IsVerified), Bool(false));
    assert f[IsVerified] == v;
    assert u[IsVerified] == v;
    OrDefaultStable(Get(emp, IsVerified), Undefined, Bool(false));
    assert EditFormOf(u)[IsVerified] == Or(v, Bool(false));
  }

  /** An edit form that is submitted and echoed back by the server refills the
      edit form with exactly the same values. */
  lemma EditFormRoundTrip(emp: Record)
    ensures EditFormOf(UpdatePayload(EditFormOf(emp))) == EditFormOf(emp)
  {
    var f := EditFormOf(emp);
    var g := EditFormOf(UpdatePayload(f));
    forall k | k in g
      ensures g[k] == f[k]
    {
      EditFormKeysListed(k);
      if IsDual(k) {
        EditFormRoundTripDual(emp, k);
      } else if IsShared(k) {
        EditFormRoundTripShared(emp, k);
      } else if k == Issnumber {
        EditFormRoundTripIssnumber(emp);
      } else {
        EditFormRoundTripIsVerified(emp);
      }
    }
  }

  /** `v?.toLowerCase().includes(term.toLowerCase())`: an absent field gives
      `undefined`, a field that is not a string throws (`None`). */
  function LowerMatch(v: Value, term: string): Option<bool> {
    match v
    case Undefined => Some(false)
    case Null => Some(false)
    case Str(s) => Some(Contains(Lower(s), Lower(term)))
    case _ => None
  }

  /** `v?.includes(term)`: the same, without lowercasing either side. */
  function RawMatch(v: Value, term: string): Option<bool> {
    match v
    case Undefined => Some(false)
    case Null => Some(false)
    case Str(s) => Some(Contains(s, term))
    case _ => None
  }

  /** `a || b` over tests that may throw: `b` runs only when `a` gave false. */
  function OrElse(a: Option<bool>, b: Option<bool>): Option<bool> {
    match a
    case None => None
    case Some(true) => Some(true)
    case Some(false) => b
  }

  /** The search predicate over `nombre`, `apellido`, `email` and `dui`. */
  function EmployeeMatches(emp: Record, term: string): Option<bool> {
    OrElse(LowerMatch(Get(emp, Nombre), term),
      OrElse(LowerMatch(Get(emp, Apellido), term),
        OrElse(LowerMatch(Get(emp, Email), term),
          RawMatch(Get(emp, Dui), term))))
  }

  /** A text field the search can read without throwing. */
  predicate SearchableValue(v: Value) {
    v.Undefined? || v.Null? || v.Str?
  }

  predicate Searchable(emp: Record) {
    && SearchableValue(Get(emp, Nombre))
    && SearchableValue(Get(emp, Apellido))
    && SearchableValue(Get(emp, Email))
    && SearchableValue(Get(emp, Dui))
  }

  /** Field `v` is a string of which `t` is a substring. */
  predicate HasSubstring(v: Value, t: string) {
    v.Str? && Contains(v.s, t)
  }

  /** On a searchable record the predicate keeps the employee iff the lowercased
      term occurs in the lowercased name, surname or email, or the raw term
      occurs in the `dui`. */
  lemma EmployeeMatchesSearchable(emp: Record, term: string)
    requires Searchable(emp)
    ensures EmployeeMatches(emp, term) == Some(
      || (Get(emp, Nombre).Str? && Contains(Lower(Get(emp, Nombre).s), Lower(term)))
      || (Get(emp, Apellido).Str? && Contains(Lower(Get(emp, Apellido).s), Lower(term)))
      || (Get(emp, Email).Str? && Contains(Lower(Get(emp, Email).s), Lower(term)))
      || HasSubstring(Get(emp, Dui), term))
  {
  }

  /** Only the Spanish keys are consulted: a record holding its name only under
      the English keys, and no email or dui, matches no term at all. */
  lemma EnglishKeysAreNotSearched(emp: Record, term: string)
    requires Nombre !in emp && Apellido !in emp && Email !in emp && Dui !in emp
    ensures EmployeeMatches(emp, term) == Some(false)
  {
  }

  /** The empty term keeps a searchable employee iff one of the four fields is a
      string. */
  lemma EmptyTermKeepsStringFields(emp: Record)
    requires Searchable(emp)
    ensures EmployeeMatches(emp, "") == Some(
      Get(emp, Nombre).Str? || Get(emp, Apellido).Str? ||
      Get(emp, Email).Str? || Get(emp, Dui).Str?)
  {
    EmployeeMatchesSearchable(emp, "");
    if Get(emp, Nombre).Str? { ContainsEmpty(Lower(Get(emp, Nombre).s)); }
    if Get(emp, Apellido).Str? { ContainsEmpty(Lower(Get(emp, Apellido).s)); }
    if Get(emp, Email).Str? { ContainsEmpty(Lower(Get(emp, Email).s)); }
    if Get(emp, Dui).Str? { ContainsEmpty(Get(emp, Dui).s); }
  }

  /** The name test ignores case, the `dui` test does not. */
  lemma SearchCaseExamples()
    ensures EmployeeMatches(map[Nombre := Str("Ana")], "ANA") == Some(true)
    ensures EmployeeMatches(map[Dui := Str("AB-1")], "AB") == Some(true)
    ensures EmployeeMatches(map[Dui := Str("AB-1")], "ab") == Some(false)
  {
    assert StartsWith(Lower("Ana"), Lower("ANA"));
    assert StartsWith("AB-1", "AB");
    var s := "AB-1";
    assert !StartsWith(s, "ab") && !StartsWith(s[1..], "ab") && !StartsWith(s[2..], "ab");
    assert !StartsWith(s[3..], "ab") && s[4..] == [];
    assert !Contains(s[3..], "ab");
  }

  /** `employees.filter(...)`: `None` when the predicate throws on some record. */
  function FilterEmployees(xs: seq<Record>, term: string): (r: Option<seq<Record>>)
    ensures r.Some? <==> forall i :: 0 <= i < |xs| ==> EmployeeMatches(xs[i], term).Some?
    ensures r.Some? ==> |r.value| <= |xs|
    ensures r.Some? ==> forall y :: y in r.value ==> y in xs && EmployeeMatches(y, term) == Some(true)
  {
    if xs == [] then Some([])
    else
      match (EmployeeMatches(xs[0], term), FilterEmployees(xs[1..], term))
      case (Some(keep), Some(rest)) => Some((if keep then [xs[0]] else []) + rest)
      case _ => None
  }

  /** The employee filter works piecewise over concatenation: it throws iff it
      throws on either part, and otherwise the kept employees stay in list
      order. */
  lemma {:induction false} FilterEmployeesAppend(a: seq<Record>, b: seq<Record>, term: string)
    ensures FilterEmployees(a + b, term) ==
      if FilterEmployees(a, term).Some? && FilterEmployees(b, term).Some?
      then Some(FilterEmployees(a, term).value + FilterEmployees(b, term).value)
      else None
  {
    if a == [] {
      assert a + b == b;
      assert FilterEmployees(a, term) == Some([]);
      if FilterEmployees(b, term).Some? {
        assert [] + FilterEmployees(b, term).value == FilterEmployees(b, term).value;
      }
    } else {
      assert (a + b)[0] == a[0];
      assert (a + b)[1..] == a[1..] + b;
      FilterEmployeesAppend(a[1..], b, term);
      var fa, fb := FilterEmployees(a[1..], term), FilterEmployees(b, term);
      if EmployeeMatches(a[0], term).Some? && fa.Some? && fb.Some? {
        var head := if EmployeeMatches(a[0], term).value then [a[0]] else [];
        assert head + (fa.value + fb.value) == (head + fa.value) + fb.value;
      }
    }
  }

  /** When the search throws on no record, every record it accepts survives the
      filter. */
  lemma {:induction false} FilterEmployeesKeeps(xs: seq<Record>, term: string, x: Record)
    requires forall i :: 0 <= i < |xs| ==> EmployeeMatches(xs[i], term).Some?
    requires x in xs && EmployeeMatches(x, term) == Some(true)
    ensures FilterEmployees(xs, term).Some? && x in FilterEmployees(xs, term).value
  {
    if xs[0] != x {
      assert x in xs[1..];
      FilterEmployeesKeeps(xs[1..], term, x);
    }
  }

  datatype Date = Date(year: int, month: int, day: int)

  /** The calendar order of dates. */
  predicate OnOrBefore(a: Date, b: Date) {
    a.year < b.year ||
    (a.year == b.year && (a.month < b.month || (a.month == b.month && a.day <= b.day)))
  }

  /** The day the person turns `k`. */
  function Anniversary(birth: Date, k: int): Date {
    Date(birth.year + k, birth.month, birth.day)
  }

  /** `calculateAge`: 'N/A' (`None`) without a birthday; otherwise the year
      difference, less one when this year's birthday is still ahead. `birth` is
      the value parsed from `birthday`, `today` the clock's date. */
  function CalculateAge(birthday: Value, birth: Date, today: Date): (r: Option<int>)
    ensures r.None? <==> !Truthy(birthday)
    ensures r.Some? ==>
      OnOrBefore(Anniversary(birth, r.value), today) && !OnOrBefore(Anniversary(birth, r.value + 1), today)
  {
    if !Truthy(birthday) then None
    else
      var age := today.year - birth.year;
      var monthDiff := today.month - birth.month;
      Some(if monthDiff < 0 || (monthDiff == 0 && today.day < birth.day) then age - 1 else age)
  }

  /** The age is the only number of years whose anniversary has passed while the
      next one has not. */
  lemma AgeIsUnique(birthday: Value, birth: Date, today: Date, k: int)
    requires Truthy(birthday)
    requires OnOrBefore(Anniversary(birth, k), today) && !OnOrBefore(Anniversary(birth, k + 1), today)
    ensures CalculateAge(birthday, birth, today) == Some(k)
  {
  }

  /** The record the delete button puts up for confirmation: the row's employee
      with `nombre` and `apellido` reconciled as the detail view does. */
  function DeleteMapping(emp: Record): Record {
    emp[Nombre := Reconciled(emp, Nombre)][Apellido := Reconciled(emp, Apellido)]
  }

  /** The confirmation shows the same name and surname as the detail view, and
      keeps every other field, the `_id` the delete goes to among them. */
  lemma DeleteMappingFields(emp: Record, k: Key)
    ensures Get(DeleteMapping(emp), Nombre) == Get(DetailView(emp), Nombre)
    ensures Get(DeleteMapping(emp), Apellido) == Get(DetailView(emp), Apellido)
    ensures k != Nombre && k != Apellido ==> Get(DeleteMapping(emp), k) == Get(emp, k)
  {
    DetailViewKeys(emp);
    DetailViewAt(emp, Nombre);
    DetailViewAt(emp, Apellido);
  }

  /** The table component: the employee hook plus the component's own state. */
  class EmployeeTable {
    const hook: Hook
    var searchTerm: string
    var modalOpen: bool
    var selectedEmployee: Option<Record>
    var editEmployee: Option<Record>
    var deleteConfirmEmployee: Option<Record>
    var form: Record
    var editForm: Record

    /** Mounting the table mounts its hook, which fetches the employees once. */
    constructor (server: Reply<seq<Record>>)
      ensures fresh(hook) && hook.entity == Employee
      ensures hook.sent == [Sent(Request(GET, CollectionUrl(Employee), None), true, None)]
      ensures !hook.loading
      ensures server.Ok? ==> hook.items == server.body && hook.error == None
      ensures !server.Ok? ==> hook.items == [] && hook.error == Some(FetchErrorMessage(server))
      ensures searchTerm == "" && !modalOpen
      ensures selectedEmployee == None && editEmployee == None && deleteConfirmEmployee == None
      ensures form == InitialForm && editForm == InitialForm
    {
      hook := new Hook(Employee, server);
      searchTerm := "";
      modalOpen := false;
      selectedEmployee := None;
      editEmployee := None;
      deleteConfirmEmployee := None;
      form := InitialForm;
      editForm := InitialForm;
    }

    /** The rows on show: `None` when the search throws on some employee. */
    function Filtered(): Option<seq<Record>>
      reads this, hook
    {
      FilterEmployees(hook.items, searchTerm)
    }

    /** `openDetailModal(emp)`: show the reconciled record. */
    method OpenDetailModal(emp: Record)
      modifies this`selectedEmployee
      ensures selectedEmployee == Some(DetailView(emp))
    {
      selectedEmployee := Some(DetailView(emp));
    }

    /** The effect on `editEmployee`: refill the edit form only when an employee
        is being edited. */
    method EditEmployeeChanged()
      modifies this`editForm
      ensures editEmployee.Some? ==> editForm == EditFormOf(editEmployee.value)
      ensures editEmployee.None? ==> editForm == old(editForm)
    {
      if editEmployee.Some? {
        editForm := EditFormOf(editEmployee.value);
      }
    }

    /** `handleInputChange` and the create form's pickers: one field of the form
        takes the new value. */
    method HandleInputChange(name: Key, value: Value)
      modifies this`form
      ensures form == old(form)[name := value]
    {
      form := form[name := value];
    }

    /** `handleEditInputChange` and the edit form's pickers. */
    method HandleEditInputChange(name: Key, value: Value)
      modifies this`editForm
      ensures editForm == old(editForm)[name := value]
    {
      editForm := editForm[name := value];
    }

    /** The row's delete button. */
    method OpenDeleteConfirm(emp: Record)
      modifies this`deleteConfirmEmployee
      ensures deleteConfirmEmployee == Some(DeleteMapping(emp))
    {
      deleteConfirmEmployee := Some(DeleteMapping(emp));
    }

    /** `openEditModal(emp)`, followed by the effect it triggers. */
    method OpenEditModal(emp: Record)
      modifies this`editEmployee, this`editForm
      ensures editEmployee == Some(emp) && editForm == EditFormOf(emp)
    {
      editEmployee := Some(emp);
      EditEmployeeChanged();
    }

    /** `handleCreate`: add the create payload; only when the add resolves does
        the modal close and the form reset. A rejection is caught and logged.
        The employee hook's add never reaches the server, so whatever the
        server would answer, the list stays, the hook shows `Failed to fetch`
        and the modal stays open with the form as typed. */
    method HandleCreate(server: Reply<Record>)
      requires hook.entity == Employee
      modifies this`modalOpen, this`form, hook`items, hook`error, hook`sent
      ensures hook.sent == old(hook.sent) +
        [Sent(Request(POST, CreateUrlAsWritten(Employee), Some(CreatePayload(old(form)))), hook.loading, None)]
      ensures hook.items == old(hook.items) && hook.error == Some(FailedToFetch)
      ensures modalOpen == old(modalOpen) && form == old(form)
    {
      var outcome := hook.Add(CreatePayload(form), server);
      AfterAdd(outcome);
    }

    /** `handleCreate` as meant, over the add that reaches the server: a
        resolved add appends the server's record, closes the modal and resets
        the form; a rejection keeps the list, the modal and the form. */
    method HandleCreateCorrected(server: Reply<Record>)
      modifies this`modalOpen, this`form, hook`items, hook`error, hook`sent
      ensures hook.sent == old(hook.sent) +
        [Sent(Request(POST, CreateUrl(hook.entity), Some(CreatePayload(old(form)))), hook.loading, None)]
      ensures server.Ok? ==>
        hook.items == old(hook.items) + [server.body] && hook.error == None &&
        !modalOpen && form == ResetForm
      ensures !server.Ok? ==>
        hook.items == old(hook.items) && hook.error == Some(MutationErrorMessage(server)) &&
        modalOpen == old(modalOpen) && form == old(form)
    {
      var outcome := hook.AddCorrected(CreatePayload(form), server);
      AfterAdd(outcome);
    }

    /** The rest of `handleCreate` once the add settles: a resolved add closes
        the modal and resets the form; a rejection is caught and logged. */
    method AfterAdd(outcome: Result<Record>)
      modifies this`modalOpen, this`form
      ensures outcome.Resolved? ==> !modalOpen && form == ResetForm
      ensures outcome.Rejected? ==> modalOpen == old(modalOpen) && form == old(form)
    {
      if outcome.Resolved? {
        modalOpen := false;
        form := ResetForm;
      }
    }

    /** `handleUpdate`: without an employee under edit, reading its `_id` throws
        before any request and the error is only logged. Otherwise the update
        payload goes to the employee's `_id`, and the edit modal closes only when
        the update resolves (the effect then leaves the edit form alone). */
    method HandleUpdate(server: Reply<Record>)
      requires hook.entity == Employee
      modifies this`editEmployee, this`editForm, hook`items, hook`error, hook`sent
      ensures editForm == old(editForm)
      ensures old(editEmployee).None? ==> unchanged(hook) && editEmployee == None
      ensures old(editEmployee).Some? ==>
        var id := Get(old(editEmployee).value, UnderscoreId);
        && hook.sent == old(hook.sent) +
             [Sent(Request(PUT, ItemUrl(Employee, id), Some(UpdatePayload(old(editForm)))), hook.loading, None)]
        && (server.Ok? ==> hook.items == ReplaceByKey(old(hook.items), UnderscoreId, id, server.body) &&
                           hook.error == None && editEmployee == None)
        && (!server.Ok? ==> hook.items == old(hook.items) &&
                            hook.error == Some(MutationErrorMessage(server)) &&
                            editEmployee == old(editEmployee))
    {
      if editEmployee.Some? {
        var outcome := hook.Update(Get(editEmployee.value, UnderscoreId), UpdatePayload(editForm), server);
        if outcome.Resolved? {
          editEmployee := None;
          EditEmployeeChanged();
        }
      }
    }

    /** `handleDeleteConfirm`: nothing without an employee to delete; otherwise
        delete by its `_id`, closing the confirmation only when that resolves. */
    method HandleDeleteConfirm(server: Reply<()>)
      requires hook.entity == Employee
      modifies this`deleteConfirmEmployee, hook`items, hook`error, hook`sent
      ensures old(deleteConfirmEmployee).None? ==> unchanged(hook) && deleteConfirmEmployee == None
      ensures old(deleteConfirmEmployee).Some? ==>
        var id := Get(old(deleteConfirmEmployee).value, UnderscoreId);
        && hook.sent == old(hook.sent) + [Sent(Request(DELETE, ItemUrl(Employee, id), None), hook.loading, None)]
        && (StatusOk(server) ==> hook.items == RemoveByKey(old(hook.items), UnderscoreId, id) &&
                                 hook.error == None && deleteConfirmEmployee == None)
        && (!StatusOk(server) ==> hook.items == old(hook.items) &&
                                  hook.error == Some(MutationErrorMessage(server)) &&
                                  deleteConfirmEmployee == old(deleteConfirmEmployee))
    {
      if deleteConfirmEmployee.None? {
        return;
      }
      var outcome := hook.Delete(Get(deleteConfirmEmployee.value, UnderscoreId), server);
      if outcome.Resolved? {
        deleteConfirmEmployee := None;
      }
    }
  }

  /** The delete button on a row and then the confirmation: the request goes to
      the row's own `_id`, and a successful delete drops every employee with it. */
  method DeleteRow(t: EmployeeTable, emp: Record, server: Reply<()>)
    requires t.hook.entity == Employee
    modifies t`deleteConfirmEmployee, t.hook`items, t.hook`error, t.hook`sent
    ensures t.hook.sent == old(t.hook.sent) +
      [Sent(Request(DELETE, ItemUrl(Employee, Get(emp, UnderscoreId)), None), t.hook.loading, None)]
    ensures StatusOk(server) ==>
      t.hook.items == RemoveByKey(old(t.hook.items), UnderscoreId, Get(emp, UnderscoreId)) &&
      t.hook.error == None && t.deleteConfirmEmployee == None
    ensures !StatusOk(server) ==>
      t.hook.items == old(t.hook.items) && t.hook.error == Some(MutationErrorMessage(server))
  {
    t.OpenDeleteConfirm(emp);
    DeleteMappingFields(emp, UnderscoreId);
    t.HandleDeleteConfirm(server);
  }
}
