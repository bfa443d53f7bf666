/** The blog table: a local list seeded with two posts, with no server behind
    it. The table searches the list, creates posts in memory and shows each
    post's content as a fixed-length preview. */
module Blogs {
  import opened Fields
  import opened Js
  import opened RecordLists

  const SeedImage: string := "https://inkscape.app/wp-content/uploads/imagen-vectorial.webp"

  function Blog(id: string, titulo: string, contenido: string): Record {
    map[Id := Num(id), Titulo := Str(titulo), Contenido := Str(contenido), Imagen := Str(SeedImage)]
  }

  /** `initialBlogs`. */
  const InitialBlogs: seq<Record> := [
    Blog("1", "Nuevo lanzamiento de producto",
         "Estamos emocionados de anunciar el lanzamiento de nuestro nuevo producto."),
    Blog("2", "Tips de productividad",
         "Aprende a mejorar tu día con estos consejos de productividad.")
  ]

  /** The seed ids are 1 and 2, one post each. */
  lemma InitialBlogIds()
    ensures |InitialBlogs| == 2
    ensures forall i :: 0 <= i < 2 ==> Get(InitialBlogs[i], Id) == Num(DecimalString(i + 1))
    ensures forall i :: 0 <= i < 2 ==> Count(InitialBlogs, Id, Get(InitialBlogs[i], Id)) == 1
  {
    var bs := InitialBlogs;
    assert bs[1..][1..] == [];
    assert DecimalString(1) == "1" && DecimalString(2) == "2";
  }

  /** The create form as first shown and after every create. */
  const EmptyForm: Record := map[Titulo := Str(""), Contenido := Str(""), Imagen := Str("")]

  /** The text a post is searched in: `${titulo} ${contenido}`. */
  function RowText(b: Record): string {
    JsString(Get(b, Titulo)) + " " + JsString(Get(b, Contenido))
  }

  predicate BlogMatches(b: Record, term: string) {
    Contains(Lower(RowText(b)), Lower(term))
  }

  /** `filteredBlogs`. */
  function FilterBlogs(bs: seq<Record>, term: string): seq<Record> {
    Filter(bs, b => BlogMatches(b, term))
  }

  /** The search keeps exactly the posts whose row text includes the term,
      ignoring case. */
  lemma FilterBlogsExact(bs: seq<Record>, term: string, x: Record)
    ensures x in FilterBlogs(bs, term) <==> x in bs && BlogMatches(x, term)
  {
    if x in bs && BlogMatches(x, term) {
      FilterKeeps(bs, b => BlogMatches(b, term), x);
    }
  }

  /** An empty search shows every post, in order. */
  lemma EmptyTermKeepsAllBlogs(bs: seq<Record>)
    ensures FilterBlogs(bs, "") == bs
  {
    forall b | b in bs ensures BlogMatches(b, "") {
      ContainsEmpty(Lower(RowText(b)));
    }
    FilterAll(bs, b => BlogMatches(b, ""));
  }

  /** Lowercasing the term first changes nothing. */
  lemma BlogSearchIgnoresCase(bs: seq<Record>, term: string)
    ensures FilterBlogs(bs, Lower(term)) == FilterBlogs(bs, term)
  {
    LowerIdempotent(term);
    FilterSame(bs, b => BlogMatches(b, Lower(term)), b => BlogMatches(b, term));
  }

  /** A term found in the title or in the content finds the post. */
  lemma FieldHitFindsBlog(b: Record, term: string)
    requires Contains(Lower(JsString(Get(b, Titulo))), Lower(term)) ||
             Contains(Lower(JsString(Get(b, Contenido))), Lower(term))
    ensures BlogMatches(b, term)
  {
    var ti, co := JsString(Get(b, Titulo)), JsString(Get(b, Contenido));
    var t := Lower(term);
    if Contains(Lower(ti), t) {
      assert RowText(b) == "" + ti + (" " + co);
      LowerContainsPart("", ti, " " + co, t);
    } else {
      assert RowText(b) == (ti + " ") + co + "";
      LowerContainsPart(ti + " ", co, "", t);
    }
  }

  /** `{...form, id: Date.now()}`, with the clock reading as an input. */
  function NewBlog(form: Record, now: nat): Record {
    form[Id := Num(DecimalString(now))]
  }

  /** The new post is the form's fields plus the clock reading as its id; a
      reading no post carries yet becomes the id of exactly one post. */
  lemma NewBlogFields(bs: seq<Record>, form: Record, now: nat, k: Key)
    ensures NewBlog(form, now).Keys == form.Keys + {Id}
    ensures Get(NewBlog(form, now), Id) == Num(DecimalString(now))
    ensures k != Id ==> Get(NewBlog(form, now), k) == Get(form, k)
    ensures Count(bs, Id, Num(DecimalString(now))) == 0 ==>
      Count(bs + [NewBlog(form, now)], Id, Num(DecimalString(now))) == 1
  {
    AppendCount(bs, Id, NewBlog(form, now));
  }

  /** `{text.slice(0, 40)}...`: the first 40 characters (all of them when there
      are fewer), then an ellipsis, whatever the length. */
  function Preview(text: string): (r: string)
    ensures |r| == (if |text| < 40 then |text| else 40) + 3
    ensures forall i :: 0 <= i < |r| - 3 ==> r[i] == text[i]
    ensures r[|r| - 3..] == "..."
  {
    (if |text| < 40 then text else text[..40]) + "..."
  }

  /** A post of at most 40 characters shows whole, still followed by the
      ellipsis; a longer one shows exactly its first 40. */
  lemma PreviewCases(text: string)
    ensures |text| <= 40 ==> Preview(text) == text + "..."
    ensures |text| >= 40 ==> Preview(text) == text[..40] + "..."
  {
    var r := Preview(text);
    if |text| <= 40 {
      assert r[..|text|] == text;
      assert r == r[..|text|] + r[|text|..];
    } else {
      assert r[..40] == text[..40];
      assert r == r[..40] + r[40..];
    }
  }

  /** Texts that agree on their first 40 characters have the same preview. */
  lemma PreviewSeesOnlyFirst40(a: string, b: string)
    requires |a| >= 40 && |b| >= 40 && a[..40] == b[..40]
    ensures Preview(a) == Preview(b)
  {
    PreviewCases(a);
    PreviewCases(b);
  }

  /** The row's preview cell: `blog.contenido.slice(0, 40)` throws (`None`) when
      the content is not a string. */
  function RowPreview(b: Record): (r: Option<string>)
    ensures r.Some? <==> Get(b, Contenido).Str?
  {
    match Get(b, Contenido)
    case Str(s) => Some(Preview(s))
    case _ => None
  }

  class BlogTable {
    var blogs: seq<Record>
    var searchTerm: string
    var modalOpen: bool
    var form: Record

    /** The component's initial state. */
    constructor ()
      ensures blogs == InitialBlogs && searchTerm == "" && !modalOpen && form == EmptyForm
    {
      blogs := InitialBlogs;
      searchTerm := "";
      modalOpen := false;
      form := EmptyForm;
    }

    /** The rows on show. */
    function Filtered(): seq<Record>
      reads this
    {
      FilterBlogs(blogs, searchTerm)
    }

    /** `handleInputChange`: the named form field takes the typed text. */
    method HandleInputChange(name: Key, value: string)
      modifies this`form
      ensures form == old(form)[name := Str(value)]
    {
      form := form[name := Str(value)];
    }

    /** The file input: when a file is chosen, the form's image becomes the
        object URL the browser made for it (an input); otherwise nothing. */
    method ChooseImage(objectUrl: Option<string>)
      modifies this`form
      ensures objectUrl.Some? ==> form == old(form)[Imagen := Str(objectUrl.value)]
      ensures objectUrl.None? ==> form == old(form)
    {
      if objectUrl.Some? {
        form := form[Imagen := Str(objectUrl.value)];
      }
    }

    /** `handleCreate`: append the new post, close the modal, empty the form. */
    method HandleCreate(now: nat)
      modifies this`blogs, this`modalOpen, this`form
      ensures blogs == old(blogs) + [NewBlog(old(form), now)]
      ensures !modalOpen && form == EmptyForm
    {
      var newBlog := NewBlog(form, now);
      blogs := blogs + [newBlog];
      modalOpen := false;
      form := EmptyForm;
    }
  }
}
