/** The product table: a local list seeded with three products, with no server
    behind it. The table searches the list and creates, edits and deletes
    entries in memory, keyed by `id`. */
module Products {
  import opened Fields
  import opened Js
  import opened RecordLists

  function Product(id: string, nombre: string, descripcion: string, precio: string, stock: string): Record {
    map[Id := Num(id), Nombre := Str(nombre), Descripcion := Str(descripcion),
        Precio := Num(precio), Stock := Num(stock)]
  }

  /** `initialProducts`. */
  const InitialProducts: seq<Record> := [
    Product("1", "Laptop HP", "Laptop HP 14 pulgadas", "799.99", "12"),
    Product("2", "Mouse Logitech", "Mouse inalámbrico Logitech M185", "19.99", "45"),
    Product("3", "Teclado mecánico", "Teclado retroiluminado con switches azules", "49.5", "30")
  ]

  /** The seed ids are 1, 2 and 3, one product each. */
  lemma InitialProductIds()
    ensures |InitialProducts| == 3
    ensures forall i :: 0 <= i < 3 ==> Get(InitialProducts[i], Id) == Num(DecimalString(i + 1))
    ensures forall i :: 0 <= i < 3 ==> Count(InitialProducts, Id, Get(InitialProducts[i], Id)) == 1
  {
    var ps := InitialProducts;
    assert ps[1..][1..] == [ps[2]];
    assert ps[1..][1..][1..] == [];
    assert DecimalString(1) == "1" && DecimalString(2) == "2" && DecimalString(3) == "3";
  }

  /** The create form as first shown and after every create or update. */
  const EmptyForm: Record :=
    map[Nombre := Str(""), Descripcion := Str(""), Precio := Str(""), Stock := Str("")]

  /** The text a product is searched in: `${nombre} ${precio} ${stock}`. */
  function RowText(p: Record): string {
    JsString(Get(p, Nombre)) + " " + JsString(Get(p, Precio)) + " " + JsString(Get(p, Stock))
  }

  predicate ProductMatches(p: Record, term: string) {
    Contains(Lower(RowText(p)), Lower(term))
  }

  /** `filteredProducts`. */
  function FilterProducts(ps: seq<Record>, term: string): seq<Record> {
    Filter(ps, p => ProductMatches(p, term))
  }

  /** The search keeps exactly the products whose row text includes the term,
      ignoring case. */
  lemma FilterProductsExact(ps: seq<Record>, term: string, x: Record)
    ensures x in FilterProducts(ps, term) <==> x in ps && ProductMatches(x, term)
  {
    if x in ps && ProductMatches(x, term) {
      FilterKeeps(ps, p => ProductMatches(p, term), x);
    }
  }

  /** An empty search shows every product, in order. */
  lemma EmptyTermKeepsAllProducts(ps: seq<Record>)
    ensures FilterProducts(ps, "") == ps
  {
    forall p | p in ps ensures ProductMatches(p, "") {
      ContainsEmpty(Lower(RowText(p)));
    }
    FilterAll(ps, p => ProductMatches(p, ""));
  }

  /** Lowercasing the term first changes nothing. */
  lemma ProductSearchIgnoresCase(ps: seq<Record>, term: string)
    ensures FilterProducts(ps, Lower(term)) == FilterProducts(ps, term)
  {
    LowerIdempotent(term);
    FilterSame(ps, p => ProductMatches(p, Lower(term)), p => ProductMatches(p, term));
  }

  lemma NameHitFindsProduct(p: Record, term: string)
    requires Contains(Lower(JsString(Get(p, Nombre))), Lower(term))
    ensures ProductMatches(p, term)
  {
    var n, pr, st := JsString(Get(p, Nombre)), JsString(Get(p, Precio)), JsString(Get(p, Stock));
    assert RowText(p) == "" + n + (" " + pr + " " + st);
    LowerContainsPart("", n, " " + pr + " " + st, Lower(term));
  }

  lemma PriceHitFindsProduct(p: Record, term: string)
    requires Contains(Lower(JsString(Get(p, Precio))), Lower(term))
    ensures ProductMatches(p, term)
  {
    var n, pr, st := JsString(Get(p, Nombre)), JsString(Get(p, Precio)), JsString(Get(p, Stock));
    assert RowText(p) == (n + " ") + pr + (" " + st);
    LowerContainsPart(n + " ", pr, " " + st, Lower(term));
  }

  lemma StockHitFindsProduct(p: Record, term: string)
    requires Contains(Lower(JsString(Get(p, Stock))), Lower(term))
    ensures ProductMatches(p, term)
  {
    var n, pr, st := JsString(Get(p, Nombre)), JsString(Get(p, Precio)), JsString(Get(p, Stock));
    assert RowText(p) == (n + " " + pr + " ") + st + "";
    LowerContainsPart(n + " " + pr + " ", st, "", Lower(term));
  }

  /** A term found in the name, the price or the stock finds the product. */
  lemma FieldHitFindsProduct(p: Record, term: string)
    requires Contains(Lower(JsString(Get(p, Nombre))), Lower(term)) ||
             Contains(Lower(JsString(Get(p, Precio))), Lower(term)) ||
             Contains(Lower(JsString(Get(p, Stock))), Lower(term))
    ensures ProductMatches(p, term)
  {
    if Contains(Lower(JsString(Get(p, Nombre))), Lower(term)) {
      NameHitFindsProduct(p, term);
    } else if Contains(Lower(JsString(Get(p, Precio))), Lower(term)) {
      PriceHitFindsProduct(p, term);
    } else {
      StockHitFindsProduct(p, term);
    }
  }

  /** `{...form, id: Date.now(), precio: parseFloat(form.precio), stock:
      parseInt(form.stock)}`. The clock reading and the two number parsers are
      inputs; each parser maps the text of its argument to the text of the
      number it yields. */
  function NewProduct(form: Record, now: nat, parseFloat: string -> string, parseInt: string -> string): Record {
    form + map[Id := Num(DecimalString(now)),
               Precio := Num(parseFloat(JsString(Get(form, Precio)))),
               Stock := Num(parseInt(JsString(Get(form, Stock))))]
  }

  /** The new product carries the clock reading as its id and the parsed price
      and stock; every other field is the form's. */
  lemma NewProductFields(form: Record, now: nat, parseFloat: string -> string, parseInt: string -> string, k: Key)
    ensures var np := NewProduct(form, now, parseFloat, parseInt);
      && np.Keys == form.Keys + {Id, Precio, Stock}
      && Get(np, Id) == Num(DecimalString(now))
      && Get(np, Precio) == Num(parseFloat(JsString(Get(form, Precio))))
      && Get(np, Stock) == Num(parseInt(JsString(Get(form, Stock))))
      && (k != Id && k != Precio && k != Stock ==> Get(np, k) == Get(form, k))
  {
  }

  /** A clock reading no product carries yet becomes the id of exactly one
      product. */
  lemma CreateGivesFreshId(ps: seq<Record>, form: Record, now: nat, parseFloat: string -> string, parseInt: string -> string)
    requires Count(ps, Id, Num(DecimalString(now))) == 0
    ensures Count(ps + [NewProduct(form, now, parseFloat, parseInt)], Id, Num(DecimalString(now))) == 1
  {
    AppendCount(ps, Id, NewProduct(form, now, parseFloat, parseInt));
  }

  /** `{...editProduct, ...form}`: the product under edit, overlaid by the form. */
  function Overlay(editProduct: Record, form: Record): Record {
    editProduct + form
  }

  /** Every field the form holds wins, copied as the form holds it (a price typed
      into the form stays text); the rest come from the product under edit. */
  lemma OverlayFormWins(editProduct: Record, form: Record, k: Key)
    ensures Get(Overlay(editProduct, form), k) == if k in form then form[k] else Get(editProduct, k)
  {
  }

  /** When the form keeps the product's id (or holds none), the replacement still
      carries that id, so an update never changes how many products carry it. */
  lemma UpdateKeepsIdCount(ps: seq<Record>, editProduct: Record, form: Record)
    requires Id !in form || form[Id] == Get(editProduct, Id)
    ensures Count(ReplaceByKey(ps, Id, Get(editProduct, Id), Overlay(editProduct, form)), Id, Get(editProduct, Id))
         == Count(ps, Id, Get(editProduct, Id))
  {
    OverlayFormWins(editProduct, form, Id);
    ReplaceKeepsCount(ps, Id, Get(editProduct, Id), Overlay(editProduct, form));
  }

  class ProductTable {
    var products: seq<Record>
    var searchTerm: string
    var modalOpen: bool
    var editProduct: Option<Record>
    var deleteProduct: Option<Record>
    var form: Record

    /** The component's initial state. */
    constructor ()
      ensures products == InitialProducts && searchTerm == "" && !modalOpen
      ensures editProduct == None && deleteProduct == None && form == EmptyForm
    {
      products := InitialProducts;
      searchTerm := "";
      modalOpen := false;
      editProduct := None;
      deleteProduct := None;
      form := EmptyForm;
    }

    /** The rows on show. */
    function Filtered(): seq<Record>
      reads this
    {
      FilterProducts(products, searchTerm)
    }

    /** `handleInputChange`: the named form field takes the typed text. */
    method HandleInputChange(name: Key, value: string)
      modifies this`form
      ensures form == old(form)[name := Str(value)]
    {
      form := form[name := Str(value)];
    }

    /** `handleCreate`: append the new product, close the modal, empty the form. */
    method HandleCreate(now: nat, parseFloat: string -> string, parseInt: string -> string)
      modifies this`products, this`modalOpen, this`form
      ensures products == old(products) + [NewProduct(old(form), now, parseFloat, parseInt)]
      ensures !modalOpen && form == EmptyForm
    {
      var newProduct := NewProduct(form, now, parseFloat, parseInt);
      products := products + [newProduct];
      modalOpen := false;
      form := EmptyForm;
    }

    /** The edit button: the product goes under edit and fills the form, id
        included. */
    method OpenEdit(product: Record)
      modifies this`editProduct, this`form
      ensures editProduct == Some(product) && form == product
    {
      editProduct := Some(product);
      form := product;
    }

    /** Cancelling the edit closes the editor but leaves the form as it is, so the
        next create starts from the edited product's fields. */
    method CancelEdit()
      modifies this`editProduct
      ensures editProduct == None
    {
      editProduct := None;
    }

    /** `handleUpdate`: every product whose id is the edited one's becomes the
        overlay; then the editor closes and the form empties. The update is only
        reachable from the edit form, shown while a product is under edit. */
    method HandleUpdate()
      requires editProduct.Some?
      modifies this`products, this`editProduct, this`form
      ensures products == ReplaceByKey(old(products), Id, Get(old(editProduct).value, Id),
                                       Overlay(old(editProduct).value, old(form)))
      ensures editProduct == None && form == EmptyForm
    {
      var target := editProduct.value;
      products := ReplaceByKey(products, Id, Get(target, Id), Overlay(target, form));
      editProduct := None;
      form := EmptyForm;
    }

    /** The delete button: the product awaits confirmation. */
    method OpenDelete(product: Record)
      modifies this`deleteProduct
      ensures deleteProduct == Some(product)
    {
      deleteProduct := Some(product);
    }

    /** `handleDelete`: drop every product whose id is the confirmed one's, then
        close the confirmation. Only reachable while a product awaits it. */
    method HandleDelete()
      requires deleteProduct.Some?
      modifies this`products, this`deleteProduct
      ensures products == RemoveByKey(old(products), Id, Get(old(deleteProduct).value, Id))
      ensures deleteProduct == None
    {
      products := RemoveByKey(products, Id, Get(deleteProduct.value, Id));
      deleteProduct := None;
    }
  }

  /** Saving an untouched edit form writes the product back as it was: when
      every product carrying its id is that product, the list is unchanged. */
  lemma UntouchedEditWritesBack(ps: seq<Record>, product: Record)
    requires forall i :: 0 <= i < |ps| && HasKey(ps[i], Id, Get(product, Id)) ==> ps[i] == product
    ensures ReplaceByKey(ps, Id, Get(product, Id), Overlay(product, product)) == ps
  {
    assert Overlay(product, product) == product;
    ReplaceBySelf(ps, Id, product);
  }

  /** Opening the editor on a product and saving at once. */
  method EditAndSave(t: ProductTable, product: Record)
    modifies t`products, t`editProduct, t`form
    ensures t.products == ReplaceByKey(old(t.products), Id, Get(product, Id), product)
    ensures t.editProduct == None && t.form == EmptyForm
  {
    t.OpenEdit(product);
    assert Overlay(product, product) == product;
    t.HandleUpdate();
  }
}
