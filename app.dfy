/**
 * The lookups of the page components: the service detail page's and the booking
 * page's catalogue searches, and the scroll spy that highlights the section in view.
 */
module App {
  import opened Wrappers
  import opened JsBuiltins
  import opened Types
  import opened Constants

  /** The service detail page's `SERVICES.find(s => s.id === id)`. */
  function FindService(id: string): (r: Option<Service>)
    ensures r.Some? ==> r.value in ServiceCatalog && r.value.id == id
    ensures r.None? <==> forall s :: s in ServiceCatalog ==> s.id != id
  {
    Find(ServiceCatalog, (s: Service) => s.id == id)
  }

  /**
   * The booking page's `PACKAGES.find(p => p.id === packageId)`, where the query
   * parameter may be absent (`null`, which equals no package id).
   */
  function FindPackage(packageId: Option<string>): (r: Option<Package>)
    ensures r.Some? ==> packageId.Some? && r.value in PackageCatalog && r.value.id == packageId.value
    ensures r.None? <==> packageId.None? || forall p :: p in PackageCatalog ==> p.id != packageId.value
  {
    Find(PackageCatalog, (p: Package) => packageId.Some? && p.id == packageId.value)
  }

  /** The ids of the catalogue entries, which differ already in their first letter. */
  const ServiceIds: seq<string> := ["boarding", "grooming", "training", "adventure"]
  const PackageIds: seq<string> := ["daycare", "suite", "villa", "training_camp"]

  lemma CatalogIds()
    ensures |ServiceCatalog| == |ServiceIds| && |PackageCatalog| == |PackageIds|
    ensures forall i :: 0 <= i < |ServiceCatalog| ==> ServiceCatalog[i].id == ServiceIds[i]
    ensures forall i :: 0 <= i < |PackageCatalog| ==> PackageCatalog[i].id == PackageIds[i]
  {
  }

  /** Every service is found under its own id. */
  lemma ServiceFoundById(i: int)
    requires 0 <= i < |ServiceCatalog|
    ensures FindService(ServiceCatalog[i].id) == Some(ServiceCatalog[i])
  {
    CatalogIds();
    var k := ServiceCatalog[i].id;
    forall j | 0 <= j < |ServiceCatalog| && j != i ensures ServiceCatalog[j].id != k {
      assert ServiceIds[j][0] != ServiceIds[i][0];
    }
    FindOnly(ServiceCatalog, (s: Service) => s.id == k, i);
  }

  /** Exactly the four catalogue ids find a service. */
  lemma ServiceIdsFound(id: string)
    ensures FindService(id).Some? <==> id in ServiceIds
  {
    CatalogIds();
    if id in ServiceIds {
      var i :| 0 <= i < |ServiceIds| && ServiceIds[i] == id;
      assert ServiceCatalog[i] in ServiceCatalog;
    }
  }

  /** Every package is found under its own id. */
  lemma PackageFoundById(i: int)
    requires 0 <= i < |PackageCatalog|
    ensures FindPackage(Some(PackageCatalog[i].id)) == Some(PackageCatalog[i])
  {
    CatalogIds();
    var k := Some(PackageCatalog[i].id);
    forall j | 0 <= j < |PackageCatalog| && j != i ensures PackageCatalog[j].id != k.value {
      assert PackageIds[j][0] != PackageIds[i][0];
    }
    FindOnly(PackageCatalog, (p: Package) => k.Some? && p.id == k.value, i);
  }

  /** Exactly the four catalogue ids find a package, and a missing query parameter finds none. */
  lemma PackageIdsFound(packageId: Option<string>)
    ensures FindPackage(packageId).Some? <==> packageId.Some? && packageId.value in PackageIds
  {
    CatalogIds();
    if packageId.Some? && packageId.value in PackageIds {
      var i :| 0 <= i < |PackageIds| && PackageIds[i] == packageId.value;
      assert PackageCatalog[i] in PackageCatalog;
    }
  }

  /** `Object.values(PageState)` lists every page. */
  lemma PageListed(p: PageState)
    ensures exists i :: 0 <= i < |AllPageStates| && AllPageStates[i] == p
  {
    match p
    case HOME => assert AllPageStates[0] == p;
    case SERVICES => assert AllPageStates[1] == p;
    case PACKAGES => assert AllPageStates[2] == p;
    case GALLERY => assert AllPageStates[3] == p;
    case ABOUT => assert AllPageStates[4] == p;
    case CONTACT => assert AllPageStates[5] == p;
    case LOGIN => assert AllPageStates[6] == p;
  }

  /**
   * The scroll spy's mapping from a section id to a page:
   * `Object.values(PageState).find(s => s.toLowerCase() === section) || PageState.HOME`.
   */
  function SectionToPage(section: string): (r: PageState)
    ensures (exists p :: ToLowerCase(PageValue(p)) == section) ==> ToLowerCase(PageValue(r)) == section
    ensures (forall p :: ToLowerCase(PageValue(p)) != section) ==> r == HOME
  {
    match Find(AllPageStates, (s: PageState) => ToLowerCase(PageValue(s)) == section)
    case Some(p) => p
    case None =>
      assert forall p :: ToLowerCase(PageValue(p)) != section by {
        forall p ensures ToLowerCase(PageValue(p)) != section {
          PageListed(p);
        }
      }
      HOME
  }

  /** The section ids the scroll spy visits, in order. */
  const ScrollSections: seq<string> := ["home", "services", "packages", "gallery", "about", "contact"]

  /** Each section the scroll spy visits is the lower-cased value of the page at the same position. */
  lemma LowerSection(i: int)
    requires 0 <= i < |ScrollSections|
    ensures ToLowerCase(PageValue(AllPageStates[i])) == ScrollSections[i]
  {
    var v := PageValue(AllPageStates[i]);
    assert ToLowerCase(v) == seq(|v|, k requires 0 <= k < |v| => LowerChar(v[k]));
  }

  /** The scroll spy maps a page's lower-cased value back to that page. */
  lemma SectionToPageInverse(p: PageState)
    ensures SectionToPage(ToLowerCase(PageValue(p))) == p
  {
    var i := match p
      case HOME => 0 case SERVICES => 1 case PACKAGES => 2 case GALLERY => 3
      case ABOUT => 4 case CONTACT => 5 case LOGIN => 6;
    var key := ToLowerCase(PageValue(p));
    forall j | 0 <= j < |AllPageStates| && j != i
      ensures ToLowerCase(PageValue(AllPageStates[j])) != key
    {
      assert ToLowerCase(PageValue(AllPageStates[j]))[0] != key[0];
    }
    FindOnly(AllPageStates, (s: PageState) => ToLowerCase(PageValue(s)) == key, i);
  }

  /** A section that is no page's lower-cased value falls back to HOME, and any other page is reached only from its own value. */
  lemma SectionToPageFallback(section: string)
    ensures SectionToPage(section) == HOME || ToLowerCase(PageValue(SectionToPage(section))) == section
    ensures (forall p :: ToLowerCase(PageValue(p)) != section) ==> SectionToPage(section) == HOME
  {
    var f := (s: PageState) => ToLowerCase(PageValue(s)) == section;
    if Find(AllPageStates, f).Some? {
      var q := Find(AllPageStates, f).value;
      assert f(q);
    }
  }

  /** Each section the scroll spy visits maps to the page at the same position. */
  lemma ScrollSectionPage(i: int)
    requires 0 <= i < |ScrollSections|
    ensures SectionToPage(ScrollSections[i]) == AllPageStates[i]
  {
    LowerSection(i);
    SectionToPageInverse(AllPageStates[i]);
  }

  /**
   * One run of the scroll handler. Off the home route no handler is installed and the
   * active page stays. On it, every section whose element exists and whose box spans
   * the line 200 pixels below the top of the viewport (`spansLine[i]`, for the i-th
   * section) sets the active page in turn, so the last such section decides.
   */
  method HandleScroll(onHome: bool, active: PageState, spansLine: seq<bool>) returns (next: PageState)
    requires |spansLine| == |ScrollSections|
    ensures !onHome ==> next == active
    ensures (forall i :: 0 <= i < |spansLine| ==> !spansLine[i]) ==> next == active
    ensures onHome && (exists i :: 0 <= i < |spansLine| && spansLine[i]) ==>
      exists i :: 0 <= i < |spansLine| && spansLine[i] && next == AllPageStates[i] &&
        forall j :: i < j < |spansLine| ==> !spansLine[j]
  {
    next := active;
    if !onHome {
      return;
    }
    ghost var last := -1;
    for i := 0 to |ScrollSections|
      invariant -1 <= last < i
      invariant last == -1 ==> next == active && forall j :: 0 <= j < i ==> !spansLine[j]
      invariant last >= 0 ==>
        spansLine[last] && next == AllPageStates[last] && forall j :: last < j < i ==> !spansLine[j]
    {
      if spansLine[i] {
        ScrollSectionPage(i);
        next := SectionToPage(ScrollSections[i]);
        last := i;
      }
    }
  }
}
