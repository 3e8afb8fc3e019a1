/** The customer's order form, `client/src/pages/OrderManagement/
    OrderForm.jsx`: its validator, the error clearing on input, the checks
    `handleSubmit` really applies, the request body it sends and the local
    order it falls back to when the server cannot be reached. */
module OrderForm {
  import opened Wrappers
  import opened Text
  import opened OrderModel
  import OrderIds
  import OrderController

  /** The form's fields; the quantity starts at 1. */
  datatype FormData = FormData(name: string, phone: string, address: string, quantity: int)

  const InitialForm := FormData("", "", "", 1)

  const NameRequired := "Name is required"
  const PhoneRequired := "Phone number is required"
  const PhoneDigits := "Phone number must be 10 digits"
  const AddressRequired := "Address is required"
  const QuantityTooSmall := "Quantity must be at least 1"

  /** `/^\d{10}$/` on the phone with every non-digit removed. */
  predicate PhoneHasTenDigits(phone: string) {
    |DigitsOf(phone)| == 10
  }

  /** The errors `validateForm` records, keyed by field name. */
  function FormErrors(f: FormData): map<string, string> {
    var m: map<string, string> := map[];
    var m := if IsBlank(f.name) then m["name" := NameRequired] else m;
    var m := if IsBlank(f.phone) then m["phone" := PhoneRequired]
             else if !PhoneHasTenDigits(f.phone) then m["phone" := PhoneDigits] else m;
    var m := if IsBlank(f.address) then m["address" := AddressRequired] else m;
    if f.quantity < 1 then m["quantity" := QuantityTooSmall] else m
  }

  /** The form is valid for `validateForm`. */
  predicate FormValid(f: FormData) {
    && !IsBlank(f.name)
    && !IsBlank(f.phone) && PhoneHasTenDigits(f.phone)
    && !IsBlank(f.address)
    && f.quantity >= 1
  }

  /** Each field has an error exactly when its rule fails, with that rule's
      message, and no other key is ever set. */
  lemma FormErrorsMeaning(f: FormData)
    ensures var e := FormErrors(f);
      && ("name" in e <==> IsBlank(f.name))
      && ("phone" in e <==> IsBlank(f.phone) || !PhoneHasTenDigits(f.phone))
      && ("phone" in e ==> e["phone"] == if IsBlank(f.phone) then PhoneRequired else PhoneDigits)
      && ("address" in e <==> IsBlank(f.address))
      && ("quantity" in e <==> f.quantity < 1)
      && e.Keys <= {"name", "phone", "address", "quantity"}
  {
  }

  /** No error is recorded exactly when the form is valid. */
  lemma NoErrorsIffValid(f: FormData)
    ensures FormErrors(f) == map[] <==> FormValid(f)
  {
    FormErrorsMeaning(f);
  }

  /** `validateForm`: fills the errors field by field and reports whether
      none was recorded. */
  method ValidateForm(f: FormData) returns (valid: bool, errors: map<string, string>)
    ensures errors == FormErrors(f)
    ensures valid <==> FormValid(f)
  {
    errors := map[];
    if IsBlank(f.name) {
      errors := errors["name" := NameRequired];
    }
    if IsBlank(f.phone) {
      errors := errors["phone" := PhoneRequired];
    } else if !PhoneHasTenDigits(f.phone) {
      errors := errors["phone" := PhoneDigits];
    }
    if IsBlank(f.address) {
      errors := errors["address" := AddressRequired];
    }
    if f.quantity < 1 {
      errors := errors["quantity" := QuantityTooSmall];
    }
    NoErrorsIffValid(f);
    valid := errors == map[];
  }

  /** The alert `handleSubmit` raises, if any: it checks only that name,
      phone and address are not blank, in that order. */
  function SubmitGuard(f: FormData): (alert: Option<string>)
    ensures alert.None? <==> !IsBlank(f.name) && !IsBlank(f.phone) && !IsBlank(f.address)
  {
    if IsBlank(f.name) then Some("Please enter your name")
    else if IsBlank(f.phone) then Some("Please enter your phone number")
    else if IsBlank(f.address) then Some("Please enter your address")
    else None
  }

  /** Every valid form gets past the submit checks, but not conversely: a
      five-digit phone and a quantity of 0 are submitted. */
  lemma SubmitGuardWeaker()
    ensures forall f :: FormValid(f) ==> SubmitGuard(f).None?
    ensures var f := FormData("Ann", "12345", "12 Main Street", 0);
      SubmitGuard(f).None? && !FormValid(f)
  {
    var f := FormData("Ann", "12345", "12 Main Street", 0);
    NotBlankWhenSomeNonSpace(f.name, 0);
    NotBlankWhenSomeNonSpace(f.phone, 0);
    NotBlankWhenSomeNonSpace(f.address, 0);
  }

  /** One edited input: the field it belongs to and its new value. */
  datatype Input = NameInput(name: string) | PhoneInput(phone: string)
                 | AddressInput(address: string) | QuantityInput(quantity: int)

  function FieldOf(i: Input): string {
    match i
    case NameInput(_) => "name"
    case PhoneInput(_) => "phone"
    case AddressInput(_) => "address"
    case QuantityInput(_) => "quantity"
  }

  function Edit(f: FormData, i: Input): FormData {
    match i
    case NameInput(v) => f.(name := v)
    case PhoneInput(v) => f.(phone := v)
    case AddressInput(v) => f.(address := v)
    case QuantityInput(v) => f.(quantity := v)
  }

  /** The form's state. */
  class OrderFormPage {
    var formData: FormData
    var errors: map<string, string>

    constructor()
      ensures formData == InitialForm && errors == map[]
    {
      formData := InitialForm;
      errors := map[];
    }

    /** `handleInputChange`: stores the value and clears the edited field's
        error if it had one; every other error is left as it was. */
    method HandleInputChange(i: Input)
      modifies this
      ensures formData == Edit(old(formData), i)
      ensures var k := FieldOf(i);
        errors == if k in old(errors) && old(errors)[k] != "" then old(errors)[k := ""] else old(errors)
      ensures forall k :: k != FieldOf(i) ==>
        (k in errors <==> k in old(errors)) && (k in errors ==> errors[k] == old(errors)[k])
      ensures FieldOf(i) !in errors || errors[FieldOf(i)] == ""
    {
      formData := Edit(formData, i);
      var k := FieldOf(i);
      if k in errors && errors[k] != "" {
        errors := errors[k := ""];
      }
    }

    /** `validateForm` on the current fields, storing the errors. */
    method Validate() returns (valid: bool)
      modifies this
      ensures errors == FormErrors(formData) && formData == old(formData)
      ensures valid <==> FormValid(formData)
    {
      valid, errors := ValidateForm(formData);
    }
  }

  /** The request body `handleSubmit` builds: the form's fields, the chosen
      cylinder and fixed email, city, postal code and empty instructions. */
  function OrderData(f: FormData, cylinder: Cylinder, nowIso: string): (b: OrderController.CreateBody)
    ensures b.email == Some("customer@example.com") && b.city == Some("Colombo")
    ensures b.postalCode == Some("10000") && b.specialInstructions == Some("")
    ensures b.customerName == Some(f.name) && b.quantity == Some(f.quantity) && b.cylinder == Some(cylinder)
  {
    OrderController.CreateBody(Some(f.name), Some("customer@example.com"), Some(f.phone), Some(f.address),
      Some("Colombo"), Some("10000"), Some(nowIso), Some(""), Some(f.quantity), Some(cylinder), None)
  }

  /** A form past the submit checks is refused by the server's required
      field check exactly when its quantity is 0. */
  lemma SubmittedFormRequiredFields(f: FormData, cylinder: Cylinder, nowIso: string)
    requires SubmitGuard(f).None? && nowIso != ""
    ensures OrderController.HasRequiredFields(OrderData(f, cylinder, nowIso)) <==> f.quantity != 0
  {
  }

  /** The order the page shows when the request fails. */
  datatype LocalOrder = LocalOrder(
    body: OrderController.CreateBody, orderId: string, orderDate: string, status: string, totalAmount: int)

  /** The fallback local order, for clock reading `nowMs` and draw `draw`. */
  function MakeLocalOrder(f: FormData, cylinder: Cylinder, nowMs: nat, draw: nat, nowIso: string): (l: LocalOrder)
    requires draw < 100
    ensures l.status == Confirmed && l.totalAmount == cylinder.price * f.quantity
    ensures l.body == OrderData(f, cylinder, nowIso)
  {
    LocalOrder(OrderData(f, cylinder, nowIso), OrderIds.GenerateOrderId(nowMs, draw), nowIso,
               Confirmed, cylinder.price * f.quantity)
  }

  /** The local order agrees with the one the server would have stored for
      the same body, clock reading and draw: same order number, status,
      total, customer and instructions. */
  lemma LocalOrderMatchesServer(f: FormData, cylinder: Cylinder, nowMs: nat, draw: nat, nowIso: string, id: Id)
    requires draw < 100
    requires OrderController.HasRequiredFields(OrderData(f, cylinder, nowIso))
    ensures var l := MakeLocalOrder(f, cylinder, nowMs, draw, nowIso);
      var o := OrderController.NewOrder(l.body, id, OrderIds.GenerateOrderId(nowMs, draw), nowMs);
      && l.orderId == o.orderId && l.status == o.status && l.totalAmount == o.totalAmount
      && o.customerName == f.name && o.specialInstructions == ""
  {
  }
}
