/** The create/edit form for one nomination (src/components/NominationForm.jsx):
    the record it starts from, the single-field change handler, and the submit
    handler that creates or updates and then goes back to the dashboard. */
module NominationForm {
  import opened Ui

  /** The names of the form's eight controls. */
  datatype Field =
    | ContractName
    | Buyer
    | Seller
    | ArrivalPeriod
    | NominationDate
    | NominationType
    | NominationKeyword
    | ForSellerOrBuyer

  /** The form's state record. */
  datatype FormData = FormData(
    contractName: string,
    buyer: string,
    seller: string,
    arrivalPeriod: string,
    nominationDate: string,
    nominationType: string,
    nominationKeyword: string,
    forSellerOrBuyer: string)

  /** The `_id` of the initial values: a string, missing, or null. A template
      literal prints the last two differently, so the model keeps them apart. */
  datatype IdField = Id(value: string) | Undefined | Null

  /** What the page hands the form: a loaded nomination when editing, an empty
      object when creating. A text field's `None` is a missing or null field;
      `||` and `?.` treat the two alike. */
  datatype InitialValues = InitialValues(
    id: IdField,
    contractName: Option<string>,
    buyer: Option<string>,
    seller: Option<string>,
    arrivalPeriod: Option<string>,
    nominationDate: Option<string>,
    nominationType: Option<string>,
    nominationKeyword: Option<string>,
    forSellerOrBuyer: Option<string>)

  const NoValues := InitialValues(Undefined, None, None, None, None, None, None, None, None)

  /** `v || d` on a possibly absent string field. */
  function OrDefault(v: Option<string>, d: string): string
  {
    if v.Some? && v.value != "" then v.value else d
  }

  /** `r` is the day part of a possibly absent date string: empty when
      absent, else its first ten characters, or all of it when shorter. */
  ghost predicate DayPrefix(v: Option<string>, r: string)
  {
    (v.None? ==> r == "") &&
    (v.Some? ==> r <= v.value && |r| <= 10 && (|v.value| >= 10 ==> |r| == 10) && (|v.value| < 10 ==> r == v.value))
  }

  /** `v?.slice(0, 10) || ''`: the `YYYY-MM-DD` part of a date string. */
  function DatePart(v: Option<string>): (r: string)
    ensures DayPrefix(v, r)
  {
    if v.None? then ""
    else
      var s := v.value;
      var cut := s[..if |s| < 10 then |s| else 10];
      if cut != "" then cut else ""
  }

  /** `r` is what `v || d` gives: the default when `v` is absent or falsy,
      `v` itself otherwise. */
  ghost predicate Defaulted(v: Option<string>, d: string, r: string)
  {
    ((v.None? || v.value == "") ==> r == d) && (v.Some? && v.value != "" ==> r == v.value)
  }

  /** The record the form starts from: every text field defaults to empty, the
      party defaults to "seller", the dates keep their first ten characters. */
  function InitialForm(iv: InitialValues): (f: FormData)
    ensures Defaulted(iv.contractName, "", f.contractName)
    ensures Defaulted(iv.buyer, "", f.buyer)
    ensures Defaulted(iv.seller, "", f.seller)
    ensures Defaulted(iv.nominationType, "", f.nominationType)
    ensures Defaulted(iv.nominationKeyword, "", f.nominationKeyword)
    ensures Defaulted(iv.forSellerOrBuyer, "seller", f.forSellerOrBuyer)
    ensures DayPrefix(iv.arrivalPeriod, f.arrivalPeriod)
    ensures DayPrefix(iv.nominationDate, f.nominationDate)
  {
    FormData(
      OrDefault(iv.contractName, ""),
      OrDefault(iv.buyer, ""),
      OrDefault(iv.seller, ""),
      DatePart(iv.arrivalPeriod),
      DatePart(iv.nominationDate),
      OrDefault(iv.nominationType, ""),
      OrDefault(iv.nominationKeyword, ""),
      OrDefault(iv.forSellerOrBuyer, "seller"))
  }

  /** A new nomination's form: every text field empty, the party "seller". */
  lemma CreateStartsBlank()
    ensures InitialForm(NoValues) == FormData("", "", "", "", "", "", "", "seller")
  {
  }

  /** Every control but the party drop-down carries `required`. */
  predicate Required(name: Field)
  {
    name != ForSellerOrBuyer
  }

  /** The browser's constraint validation: the form's submit event fires only
      when every required control holds a non-empty value. */
  predicate Submittable(f: FormData)
    ensures Submittable(f) <==> forall name :: Required(name) ==> Get(f, name) != ""
  {
    assert Required(ContractName) && Required(Buyer) && Required(Seller) && Required(ArrivalPeriod) &&
           Required(NominationDate) && Required(NominationType) && Required(NominationKeyword);
    f.contractName != "" && f.buyer != "" && f.seller != "" && f.arrivalPeriod != "" &&
    f.nominationDate != "" && f.nominationType != "" && f.nominationKeyword != ""
  }

  /** A new nomination cannot be submitted before its required fields are
      filled in. */
  lemma BlankFormBlocked()
    ensures !Submittable(InitialForm(NoValues))
  {
  }

  /** The value of one control. */
  function Get(f: FormData, name: Field): string
  {
    match name
    case ContractName => f.contractName
    case Buyer => f.buyer
    case Seller => f.seller
    case ArrivalPeriod => f.arrivalPeriod
    case NominationDate => f.nominationDate
    case NominationType => f.nominationType
    case NominationKeyword => f.nominationKeyword
    case ForSellerOrBuyer => f.forSellerOrBuyer
  }

  /** `{...prev, [name]: value}`: exactly one field replaced. */
  function With(f: FormData, name: Field, value: string): (g: FormData)
    ensures Get(g, name) == value
    ensures forall other :: other != name ==> Get(g, other) == Get(f, other)
  {
    match name
    case ContractName => f.(contractName := value)
    case Buyer => f.(buyer := value)
    case Seller => f.(seller := value)
    case ArrivalPeriod => f.(arrivalPeriod := value)
    case NominationDate => f.(nominationDate := value)
    case NominationType => f.(nominationType := value)
    case NominationKeyword => f.(nominationKeyword := value)
    case ForSellerOrBuyer => f.(forSellerOrBuyer := value)
  }

  /** Two records that agree on every control are the same record. */
  lemma FormExtensional(f: FormData, g: FormData)
    requires forall name :: Get(f, name) == Get(g, name)
    ensures f == g
  {
    assert Get(f, ContractName) == Get(g, ContractName);
    assert Get(f, Buyer) == Get(g, Buyer);
    assert Get(f, Seller) == Get(g, Seller);
    assert Get(f, ArrivalPeriod) == Get(g, ArrivalPeriod);
    assert Get(f, NominationDate) == Get(g, NominationDate);
    assert Get(f, NominationType) == Get(g, NominationType);
    assert Get(f, NominationKeyword) == Get(g, NominationKeyword);
    assert Get(f, ForSellerOrBuyer) == Get(g, ForSellerOrBuyer);
  }

  /** Typing a field's old value back in restores the record. */
  lemma ChangeUndone(f: FormData, name: Field, value: string)
    ensures With(With(f, name, value), name, Get(f, name)) == f
  {
  }

  /** Changes to different fields commute. */
  lemma ChangesCommute(f: FormData, a: Field, x: string, b: Field, y: string)
    requires a != b
    ensures With(With(f, a, x), b, y) == With(With(f, b, y), a, x)
  {
  }

  /** The submit requests. */
  datatype Call = Create(body: FormData) | Update(id: string, body: FormData)

  function Verb(c: Call): string
  {
    match c
    case Create(_) => "POST"
    case Update(_, _) => "PUT"
  }

  function Path(c: Call): string
  {
    match c
    case Create(_) => "/nominations"
    case Update(id, _) => "/nominations/" + id
  }

  /** The request a submit sends: PUT to the nomination when editing, POST to
      the collection otherwise, with the current record as the body. The id
      goes through a template literal, which prints a string as itself, a
      missing value as "undefined" and null as "null". */
  function SubmitCall(isEdit: bool, iv: InitialValues, form: FormData): (c: Call)
    ensures Verb(c) == if isEdit then "PUT" else "POST"
    ensures !isEdit ==> Path(c) == "/nominations"
    ensures isEdit && iv.id.Id? ==> Path(c) == "/nominations/" + iv.id.value
    ensures isEdit && iv.id.Undefined? ==> Path(c) == "/nominations/undefined"
    ensures isEdit && iv.id.Null? ==> Path(c) == "/nominations/null"
    ensures c.body == form
  {
    if isEdit then
      var segment := (match iv.id
                      case Id(v) => v
                      case Undefined => "undefined"
                      case Null => "null");
      Update(segment, form)
    else Create(form)
  }

  /** Between real ids the update path names the nomination: two edits that
      go to the same path edit the same id. */
  lemma {:induction false} UpdatePathNamesTheId(a: InitialValues, b: InitialValues, form: FormData)
    requires a.id.Id? && b.id.Id?
    requires Path(SubmitCall(true, a, form)) == Path(SubmitCall(true, b, form))
    ensures a.id == b.id
  {
    var prefix := "/nominations/";
    assert Path(SubmitCall(true, a, form)) == prefix + a.id.value;
    assert Path(SubmitCall(true, b, form)) == prefix + b.id.value;
    assert a.id.value == (prefix + a.id.value)[|prefix|..];
    assert b.id.value == (prefix + b.id.value)[|prefix|..];
  }

  /** As written, an edit without an id is sent to the same path as an edit
      of a nomination whose id is the string "undefined". */
  lemma MissingIdCollides(form: FormData)
    ensures var missing := NoValues;
            var named := NoValues.(id := Id("undefined"));
            Path(SubmitCall(true, missing, form)) == Path(SubmitCall(true, named, form))
  {
  }

  class NominationFormPage {
    const isEdit: bool
    const initialValues: InitialValues
    var formData: FormData
    /** The route the page has navigated to, if any. */
    var navigatedTo: Option<string>

    constructor (isEdit: bool, initialValues: InitialValues)
      ensures this.isEdit == isEdit && this.initialValues == initialValues
      ensures formData == InitialForm(initialValues) && navigatedTo == None
    {
      this.isEdit := isEdit;
      this.initialValues := initialValues;
      formData := InitialForm(initialValues);
      navigatedTo := None;
    }

    /** handleChange: the control named `name` now holds `value`. */
    method HandleChange(name: Field, value: string)
      modifies this`formData
      ensures formData == With(old(formData), name, value)
      ensures Get(formData, name) == value
      ensures forall other :: other != name ==> Get(formData, other) == Get(old(formData), other)
    {
      formData := With(formData, name, value);
    }

    /** handleSubmit: send the create or update request; on success announce
        it and go to `/`, on failure report the error and stay. The record is
        never changed. The browser runs the handler only on a submittable
        record. */
    method HandleSubmit(outcome: Response<()>) returns (call: Call, toast: Toast)
      requires Submittable(formData)
      modifies this`navigatedTo
      ensures call == SubmitCall(isEdit, initialValues, formData)
      ensures outcome.Ok? ==>
                navigatedTo == Some("/") &&
                toast == Success(if isEdit then "Nomination updated" else "Nomination created")
      ensures outcome.Err? ==>
                navigatedTo == old(navigatedTo) &&
                toast == Error(AnyMessageOr(outcome.failure, "Error saving nomination"))
    {
      call := SubmitCall(isEdit, initialValues, formData);
      match outcome
      case Ok(_) =>
        toast := Success(if isEdit then "Nomination updated" else "Nomination created");
        navigatedTo := Some("/");
      case Err(f) =>
        toast := Error(AnyMessageOr(f, "Error saving nomination"));
    }
  }
}
