/** The product-management screen's edit session: whether the modal is open,
    which product (if any) is being edited, and the form's draft values, with
    the handlers that move between them (add, edit, form change, close,
    submit, delete). The backend's answer to a mutation and the user's answer
    to the delete confirmation are inputs. */
module EditSession {
  import opened Wrappers
  import opened Products

  /** The form value: one optional slot per required form field. */
  datatype Draft = Draft(
    name: Option<string>,
    category: Option<string>,
    price: Option<Price>,
    validDate: Option<Date>)

  /** The draft of a fresh "Add Product" form: nothing entered yet. */
  const EmptyDraft: Draft := Draft(None, None, None, None)

  /** A required string field is missing when it is absent or empty. */
  predicate FilledIn(s: Option<string>)
  {
    s.Some? && s.value != ""
  }

  /** The schema check: name, category, price and valid date are all required. */
  predicate IsComplete(d: Draft)
  {
    FilledIn(d.name) && FilledIn(d.category) && d.price.Some? && d.validDate.Some?
  }

  /** The record sent to the backend: name, category and a price list. */
  datatype ProductInput = ProductInput(name: string, category: string, prices: seq<PriceEntry>)

  /** The three backend mutations, keyed by integer product id where needed. */
  datatype Mutation =
    | InsertProduct(product: ProductInput)
    | UpdateProduct(id: int, changes: ProductInput)
    | DeleteProduct(deletedId: int)

  /** How the backend answered a mutation. */
  datatype Outcome = Succeeded | Failed

  /** The component's three pieces of state. */
  datatype Session = Session(modalOpen: bool, editing: Option<Product>, draft: Draft)

  /** Mount-time state: modal closed, no target, empty form value. */
  const Initial: Session := Session(false, None, EmptyDraft)

  /** The payload built from a complete draft: its name and category and a
      single price entry made of its price and valid date. */
  function BuildPayload(d: Draft): (p: ProductInput)
    requires IsComplete(d)
    ensures p.name != "" && p.category != ""
    ensures Some(p.name) == d.name && Some(p.category) == d.category
    ensures |p.prices| == 1
    ensures Some(p.prices[0].price) == d.price && Some(p.prices[0].validDate) == d.validDate
  {
    ProductInput(d.name.value, d.category.value, [PriceEntry(d.price.value, d.validDate.value)])
  }

  /** The draft the "Edit" link seeds: the product's name and category, and
      the price and date of the FIRST entry of its price list (absent when the
      list is empty), whatever entry the table shows as latest. */
  function SeedDraft(p: Product): (d: Draft)
    ensures d.name == Some(p.name) && d.category == Some(p.category)
    ensures d.price.Some? <==> p.prices != []
    ensures d.validDate.Some? <==> p.prices != []
    ensures p.prices != [] ==> PriceEntry(d.price.value, d.validDate.value) == p.prices[0]
  {
    if |p.prices| > 0 then
      Draft(Some(p.name), Some(p.category), Some(p.prices[0].price), Some(p.prices[0].validDate))
    else
      Draft(Some(p.name), Some(p.category), None, None)
  }

  /** "Add Product": no target, an empty draft, modal open. */
  function Add(s: Session): (r: Session)
    ensures r.modalOpen && r.editing.None? && r.draft == EmptyDraft
    ensures !IsComplete(r.draft)
  {
    Session(true, None, EmptyDraft)
  }

  /** "Edit" on a row: that product becomes the target, the draft is seeded
      from it, modal open. */
  function Edit(s: Session, p: Product): (r: Session)
    ensures r.modalOpen && r.editing == Some(p) && r.draft == SeedDraft(p)
  {
    Session(true, Some(p), SeedDraft(p))
  }

  /** The modal's close button: only the modal closes; target and draft stay. */
  function Close(s: Session): (r: Session)
    ensures !r.modalOpen && r.editing == s.editing && r.draft == s.draft
  {
    s.(modalOpen := false)
  }

  /** The form's onChange: the draft is replaced by what the form reports. */
  function ChangeForm(s: Session, d: Draft): (r: Session)
    ensures r.draft == d && r.modalOpen == s.modalOpen && r.editing == s.editing
  {
    s.(draft := d)
  }

  /** The mutation a submit issues: none for an incomplete draft, otherwise
      an update of the target's id when there is a target and an insert when
      there is none, both carrying the draft's payload. */
  function SubmitRequest(s: Session): (m: Option<Mutation>)
    ensures m.None? <==> !IsComplete(s.draft)
    ensures m.Some? ==> !m.value.DeleteProduct?
    ensures m.Some? ==> (m.value.UpdateProduct? <==> s.editing.Some?)
    ensures m.Some? && m.value.UpdateProduct? ==>
              m.value.id == s.editing.value.id && m.value.changes == BuildPayload(s.draft)
    ensures m.Some? && m.value.InsertProduct? ==> m.value.product == BuildPayload(s.draft)
  {
    if !IsComplete(s.draft) then None
    else if s.editing.Some? then Some(UpdateProduct(s.editing.value.id, BuildPayload(s.draft)))
    else Some(InsertProduct(BuildPayload(s.draft)))
  }

  /** The state after a submit: the modal closes only when a mutation was
      issued and succeeded; target and draft are never changed by a submit. */
  function AfterSubmit(s: Session, outcome: Outcome): (r: Session)
    ensures r.editing == s.editing && r.draft == s.draft
    ensures !r.modalOpen <==> !s.modalOpen || (IsComplete(s.draft) && outcome == Succeeded)
    ensures !IsComplete(s.draft) || outcome == Failed ==> r == s
  {
    if SubmitRequest(s).Some? && outcome == Succeeded then s.(modalOpen := false) else s
  }

  /** The mutation a delete issues: only when the user confirmed. */
  function DeleteRequest(id: int, confirmed: bool): (m: Option<Mutation>)
    ensures m.Some? <==> confirmed
    ensures m.Some? ==> m.value == DeleteProduct(id)
  {
    if confirmed then Some(DeleteProduct(id)) else None
  }

  /** A failed submit leaves everything as it was, so submitting again
      without retyping issues the very same mutation. */
  lemma RetryAfterFailureRepeatsMutation(s: Session)
    ensures AfterSubmit(s, Failed) == s
    ensures SubmitRequest(AfterSubmit(s, Failed)) == SubmitRequest(s)
  {
  }

  /** A freshly opened "Add Product" form cannot be submitted: nothing is
      issued and the modal stays open, whatever the backend would answer. */
  lemma AddThenSubmitIsBlocked(s: Session, outcome: Outcome)
    ensures SubmitRequest(Add(s)) == None
    ensures AfterSubmit(Add(s), outcome) == Add(s) && AfterSubmit(Add(s), outcome).modalOpen
  {
  }

  /** Add, fill the form completely, submit: an insert of exactly the typed
      values is issued, and on success the modal closes. */
  lemma AddFillSubmitInserts(s: Session, d: Draft, outcome: Outcome)
    requires IsComplete(d)
    ensures SubmitRequest(ChangeForm(Add(s), d)) ==
              Some(InsertProduct(ProductInput(d.name.value, d.category.value,
                                              [PriceEntry(d.price.value, d.validDate.value)])))
    ensures !AfterSubmit(ChangeForm(Add(s), d), outcome).modalOpen <==> outcome == Succeeded
  {
  }

  /** Edit a product and submit unchanged: an update keyed by that product's
      id is issued, carrying its name, category and its first price entry. */
  lemma EditThenSubmitUpdates(s: Session, p: Product)
    requires p.name != "" && p.category != "" && p.prices != []
    ensures SubmitRequest(Edit(s, p)) ==
              Some(UpdateProduct(p.id, ProductInput(p.name, p.category, [p.prices[0]])))
  {
    var d := SeedDraft(p);
    assert PriceEntry(d.price.value, d.validDate.value) == p.prices[0];
  }

  /** Editing a product without prices, or with an empty name or category,
      seeds an incomplete draft: submitting it unchanged issues nothing. */
  lemma EditIncompleteProductIsBlocked(s: Session, p: Product, outcome: Outcome)
    requires p.prices == [] || p.name == "" || p.category == ""
    ensures SubmitRequest(Edit(s, p)) == None
    ensures AfterSubmit(Edit(s, p), outcome) == Edit(s, p)
  {
  }

  /** The edit form is seeded from the first price entry, which need not be
      the latest price the table shows for the same product. */
  lemma SeedMayDifferFromLatestPrice(older: Price, newer: Price)
    requires older != newer
    ensures var p := Product(1, "Widget", "Tools", [PriceEntry(older, 1), PriceEntry(newer, 2)]);
            SeedDraft(p).price == Some(older) &&
            LatestPrice(p.prices) == Some(PriceEntry(newer, 2)) &&
            SeedDraft(p).price != Some(LatestPrice(p.prices).value.price)
  {
    var prices := [PriceEntry(older, 1), PriceEntry(newer, 2)];
    assert IsFirstLatest(prices, 1);
    LatestPriceIsFirstLatest(prices, 1);
  }

  /** Closing the modal keeps the target: a later submit of the same session
      would still be keyed by the product that was being edited. */
  lemma CloseKeepsSubmitTarget(s: Session)
    ensures SubmitRequest(Close(s)) == SubmitRequest(s)
  {
  }

  /** The screen itself: its state is updated in place by the handlers, and
      the table rows are whatever the live feed pushed last. */
  class ProductManagement {
    var modalOpen: bool
    var editingProduct: Option<Product>
    var formValue: Draft
    var products: seq<Product>

    /** The edit-session part of the state, as a value. */
    function State(): Session
      reads this
    {
      Session(modalOpen, editingProduct, formValue)
    }

    /** Mount: modal closed, no target, empty draft, no rows yet. */
    constructor ()
      ensures State() == Initial && products == []
    {
      modalOpen := false;
      editingProduct := None;
      formValue := EmptyDraft;
      products := [];
    }

    method HandleAdd()
      modifies this
      ensures State() == Add(old(State())) && products == old(products)
    {
      editingProduct := None;
      formValue := EmptyDraft;
      modalOpen := true;
    }

    method HandleEdit(product: Product)
      modifies this
      ensures State() == Edit(old(State()), product) && products == old(products)
    {
      editingProduct := Some(product);
      var price := if |product.prices| > 0 then Some(product.prices[0].price) else None;
      var validDate := if |product.prices| > 0 then Some(product.prices[0].validDate) else None;
      formValue := Draft(Some(product.name), Some(product.category), price, validDate);
      modalOpen := true;
    }

    /** The form's onChange. */
    method HandleFormChange(value: Draft)
      modifies this
      ensures State() == ChangeForm(old(State()), value) && products == old(products)
    {
      formValue := value;
    }

    /** The modal's onClose. */
    method HandleClose()
      modifies this
      ensures State() == Close(old(State())) && products == old(products)
    {
      modalOpen := false;
    }

    /** Submit: validate, build the payload, issue an update or an insert,
        and close the modal only when the backend answered with success. */
    method HandleSubmit(outcome: Outcome) returns (issued: Option<Mutation>)
      modifies this
      ensures issued == SubmitRequest(old(State()))
      ensures State() == AfterSubmit(old(State()), outcome) && products == old(products)
    {
      if !IsComplete(formValue) {
        return None;
      }
      var productData := ProductInput(
        formValue.name.value,
        formValue.category.value,
        [PriceEntry(formValue.price.value, formValue.validDate.value)]);
      if editingProduct.Some? {
        issued := Some(UpdateProduct(editingProduct.value.id, productData));
      } else {
        issued := Some(InsertProduct(productData));
      }
      if outcome == Succeeded {
        modalOpen := false;
      }
    }

    /** Delete: the mutation is issued only when the user confirmed; neither
        its success nor its failure touches the screen's state. */
    method HandleDelete(id: int, confirmed: bool, outcome: Outcome) returns (issued: Option<Mutation>)
      ensures issued == DeleteRequest(id, confirmed)
    {
      issued := None;
      if confirmed {
        issued := Some(DeleteProduct(id));
      }
    }

    /** A push from the live feed: the rows become the pushed list, as is. */
    method ReceiveSnapshot(snapshot: seq<Product>)
      modifies this
      ensures products == snapshot && State() == old(State())
    {
      products := snapshot;
    }
  }
}
