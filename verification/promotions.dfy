/** Promotions: the management page (src/pages/ManagePromotions.jsx) with its
    name search, paging and add/edit form, and the customer-facing carousel
    (src/pages/DisplayPromotions.jsx) that cycles through active
    promotions. */
module Promotions {
  import opened Common
  import opened Pagination

  /** A promotion row. */
  datatype Promotion = Promotion(id: int, name: string, status: string)

  // ---------------------------------------------------------------------------
  // Management page
  // ---------------------------------------------------------------------------

  /** `filteredPromotions`: promotions whose lower-cased name contains the
      lower-cased query, in their original order. */
  function FilterPromotions(ps: seq<Promotion>, query: string): (r: seq<Promotion>)
    ensures forall i :: 0 <= i < |r| ==> r[i] in ps && Contains(ToLower(r[i].name), ToLower(query))
    ensures forall i :: 0 <= i < |ps| && Contains(ToLower(ps[i].name), ToLower(query)) ==> ps[i] in r
    ensures forall p :: multiset(r)[p] == if Contains(ToLower(p.name), ToLower(query)) then multiset(ps)[p] else 0
    ensures Subsequence(r, ps)
  {
    FilterCountsAll(ps, (p: Promotion) => Contains(ToLower(p.name), ToLower(query)));
    Filter(ps, (p: Promotion) => Contains(ToLower(p.name), ToLower(query)))
  }

  /** The rows shown: the current page of the filtered promotions. */
  function CurrentPromotions(ps: seq<Promotion>, query: string, v: PageView): (r: seq<Promotion>)
    requires v.perPage > 0
    ensures |r| <= v.perPage
    ensures forall i :: 0 <= i < |r| ==> r[i] in ps && Contains(ToLower(r[i].name), ToLower(query))
  {
    var f := FilterPromotions(ps, query);
    var r := PageSlice(f, v.page, v.perPage);
    assert forall i :: 0 <= i < |r| ==> r[i] in f;
    r
  }

  /** The form: name, the chosen image file (by name) and the status. */
  datatype PromoForm = PromoForm(name: string, image: Option<string>, status: string)

  /** The form as the page starts it and resets it. */
  const EmptyForm := PromoForm("", None, "inactive")

  /** The modal state of the management page. */
  datatype PromoPage = PromoPage(showAdd: bool, showEdit: bool, selected: Option<Promotion>, form: PromoForm)

  /** The request the submit sends: a PUT to the selected promotion or a POST
      to the collection, with the multipart fields in order. */
  datatype Verb = Put(target: int) | Post
  datatype Request = Request(verb: Verb, fields: seq<(string, string)>)

  /** The multipart body: name, then the image only when one was chosen, then
      the status. */
  function FormFields(f: PromoForm): (r: seq<(string, string)>)
    ensures f.image.None? ==> r == [("name", f.name), ("status", f.status)]
    ensures f.image.Some? ==> r == [("name", f.name), ("image", f.image.value), ("status", f.status)]
  {
    [("name", f.name)] + (if f.image.Some? then [("image", f.image.value)] else []) + [("status", f.status)]
  }

  /** The request of `handleSubmit`, or `None` when building it throws (edit
      mode with no promotion selected dereferences `null`). */
  function SubmitRequest(pg: PromoPage): (r: Option<Request>)
    ensures pg.showEdit && pg.selected.None? ==> r.None?
    ensures pg.showEdit && pg.selected.Some? ==> r == Some(Request(Put(pg.selected.value.id), FormFields(pg.form)))
    ensures !pg.showEdit ==> r == Some(Request(Post, FormFields(pg.form)))
  {
    if pg.showEdit then
      if pg.selected.Some? then Some(Request(Put(pg.selected.value.id), FormFields(pg.form))) else None
    else Some(Request(Post, FormFields(pg.form)))
  }

  /** The image field is sent exactly when an image was chosen, and the name
      and status always are. */
  lemma ImageSentOnlyWhenChosen(pg: PromoPage)
    requires SubmitRequest(pg).Some?
    ensures var fs := SubmitRequest(pg).value.fields;
            && (exists i :: 0 <= i < |fs| && fs[i].0 == "image") <==> pg.form.image.Some?
    ensures var fs := SubmitRequest(pg).value.fields;
            fs[0] == ("name", pg.form.name) && fs[|fs| - 1] == ("status", pg.form.status)
  {
    var fs := SubmitRequest(pg).value.fields;
    assert "name" != "image" by { assert "name"[0] != "image"[0]; }
    assert "status" != "image" by { assert "status"[0] != "image"[0]; }
    if pg.form.image.Some? {
      assert fs[1].0 == "image";
    }
  }

  /** After `handleSubmit`: on success (the request was sent and answered)
      both modals close and the form is reset; on failure nothing changes. */
  function Submit(pg: PromoPage, succeeded: bool): (r: PromoPage)
    ensures (SubmitRequest(pg).Some? && succeeded) ==> !r.showAdd && !r.showEdit && r.form == EmptyForm
    ensures !(SubmitRequest(pg).Some? && succeeded) ==> r == pg
    ensures r.selected == pg.selected
  {
    if SubmitRequest(pg).Some? && succeeded then pg.(showAdd := false, showEdit := false, form := EmptyForm)
    else pg
  }

  /** The Edit button of a row: selects it and loads its name and status,
      with no image. */
  function OpenEdit(pg: PromoPage, p: Promotion): (r: PromoPage)
    ensures r.showEdit && r.selected == Some(p) && r.form == PromoForm(p.name, None, p.status)
  {
    pg.(selected := Some(p), form := PromoForm(p.name, None, p.status), showEdit := true)
  }

  /** The Add button: a fresh form in the add modal. */
  function OpenAdd(pg: PromoPage): (r: PromoPage)
    ensures r.showAdd && r.form == EmptyForm
  {
    pg.(form := EmptyForm, showAdd := true)
  }

  /** Opening a row for editing and saving it successfully sends a PUT to
      that row's id, then closes the modals with a reset form. */
  lemma EditThenSavePutsSelected(pg: PromoPage, p: Promotion)
    ensures SubmitRequest(OpenEdit(pg, p)) == Some(Request(Put(p.id), [("name", p.name), ("status", p.status)]))
    ensures var r := Submit(OpenEdit(pg, p), true); !r.showAdd && !r.showEdit && r.form == EmptyForm
  {
  }

  // ---------------------------------------------------------------------------
  // Carousel
  // ---------------------------------------------------------------------------

  /** The promotions the carousel shows: status "active", in order. */
  function ActiveOnly(ps: seq<Promotion>): (r: seq<Promotion>)
    ensures forall i :: 0 <= i < |r| ==> r[i] in ps && r[i].status == "active"
    ensures forall i :: 0 <= i < |ps| && ps[i].status == "active" ==> ps[i] in r
    ensures forall p :: multiset(r)[p] == if p.status == "active" then multiset(ps)[p] else 0
    ensures Subsequence(r, ps)
  {
    FilterCountsAll(ps, (p: Promotion) => p.status == "active");
    Filter(ps, (p: Promotion) => p.status == "active")
  }

  /** One five-second tick: no interval runs for an empty list; otherwise the
      index moves to the next slide, wrapping from the last to the first. */
  function Advance(index: int, len: nat): (r: int)
    ensures len == 0 ==> r == index
    ensures len > 0 && 0 <= index < len ==> 0 <= r < len && r == (index + 1) % len
  {
    if len == 0 then index
    else if index == len - 1 then 0
    else index + 1
  }

  /** `k` ticks. */
  function AdvanceN(index: int, len: nat, k: nat): int {
    if k == 0 then index else Advance(AdvanceN(index, len, k - 1), len)
  }

  /** From a valid index the carousel never leaves the list. */
  lemma {:induction false} AdvanceNStaysInRange(index: int, len: nat, k: nat)
    requires 0 <= index < len
    ensures 0 <= AdvanceN(index, len, k) < len
  {
    if k > 0 {
      AdvanceNStaysInRange(index, len, k - 1);
    }
  }

  /** Ticks compose: `a` ticks followed by `b` ticks are `a + b` ticks. */
  lemma {:induction false} AdvanceNCompose(index: int, len: nat, a: nat, b: nat)
    ensures AdvanceN(index, len, a + b) == AdvanceN(AdvanceN(index, len, a), len, b)
  {
    if b > 0 {
      AdvanceNCompose(index, len, a, b - 1);
      assert a + b - 1 == a + (b - 1);
    }
  }

  /** Before reaching the last slide, `k` ticks simply add `k`. */
  lemma {:induction false} AdvanceNCountsUp(index: int, len: nat, k: nat)
    requires 0 <= index && index + k < len
    ensures AdvanceN(index, len, k) == index + k
  {
    if k > 0 {
      AdvanceNCountsUp(index, len, k - 1);
    }
  }

  /** After as many ticks as there are slides the carousel is back where it
      started: every slide is shown once per cycle. */
  lemma FullCycleReturns(index: int, len: nat)
    requires 0 <= index < len
    ensures AdvanceN(index, len, len) == index
  {
    var up := len - 1 - index;
    AdvanceNCountsUp(index, len, up);
    AdvanceNCompose(index, len, up, 1);
    assert AdvanceN(index, len, up + 1) == 0;
    AdvanceNCountsUp(0, len, index);
    AdvanceNCompose(index, len, up + 1, index);
    assert up + 1 + index == len;
  }

  /** The slide at `index` is opaque; the others are transparent. */
  function Opacities(len: nat, current: int): (r: seq<bool>)
    ensures |r| == len
    ensures forall i :: 0 <= i < len ==> (r[i] <==> i == current)
  {
    seq(len, i requires 0 <= i < len => i == current)
  }

  /** For a valid index exactly one slide is opaque. */
  lemma ExactlyOneSlideOpaque(len: nat, current: int)
    requires 0 <= current < len
    ensures Opacities(len, current)[current]
    ensures forall i, j ::
              (0 <= i < len && 0 <= j < len && Opacities(len, current)[i] && Opacities(len, current)[j]) ==> i == j
  {
  }
}
