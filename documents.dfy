/** The Documents page (src/pages/Documents.tsx): a fixed list of six
    documents, a multi-selection of document ids with per-row toggles and a
    select-all header box, and the "recent" and "shared with me" lists. */
module Documents {
  import opened Collections
  import Text

  datatype Document = Document(id: string, name: string, shared: bool, ownerName: string)

  /** The page's constant `documents` array (icons, sizes and dates left out). */
  const Catalog: seq<Document> := [
    Document("1", "Project Proposal.docx", true, "Alex J"),
    Document("2", "Requirements Specification.pdf", true, "Sarah M"),
    Document("3", "Design Assets", true, "Emily C"),
    Document("4", "Marketing Plan.xlsx", false, "David L"),
    Document("5", "Project Logo.png", false, "Alex J"),
    Document("6", "Budget Estimates.xlsx", false, "Michael B")
  ]

  /** `documents.map(doc => doc.id)`. */
  function Ids(docs: seq<Document>): (ids: seq<string>)
    ensures |ids| == |docs|
    ensures forall i :: 0 <= i < |docs| ==> ids[i] == docs[i].id
  {
    seq(|docs|, i requires 0 <= i < |docs| => docs[i].id)
  }

  function IsNot(id: string): string -> bool
  {
    item => item != id
  }

  /** `selectedItems.filter(item => item !== id)`. */
  function Without(selection: seq<string>, id: string): (r: seq<string>)
    ensures id !in r
    ensures forall x :: x != id ==> (x in r <==> x in selection)
  {
    Filter(selection, IsNot(id))
  }

  /** The selection after `toggleItemSelection(id)`. */
  function Toggled(selection: seq<string>, id: string): (r: seq<string>)
    ensures id in r <==> id !in selection
    ensures forall x :: x != id ==> (x in r <==> x in selection)
  {
    if id in selection then Without(selection, id) else selection + [id]
  }

  /** Removing an id that was only appended at the end restores the list. */
  lemma WithoutAppended(selection: seq<string>, id: string)
    requires id !in selection
    ensures Without(selection + [id], id) == selection
  {
    FilterAppend(selection, [id], IsNot(id));
    FilterSingle(id, IsNot(id));
    FilterKeepsAll(selection, IsNot(id));
  }

  /** Toggling an absent id twice restores the selection exactly. */
  lemma ToggleTwiceRestores(selection: seq<string>, id: string)
    requires id !in selection
    ensures Toggled(Toggled(selection, id), id) == selection
  {
    WithoutAppended(selection, id);
  }

  /** Toggling a present id twice does not restore the order: the id moves to
      the end. */
  lemma ToggleTwiceMovesToEnd(selection: seq<string>, id: string)
    requires id in selection
    ensures Toggled(Toggled(selection, id), id) == Without(selection, id) + [id]
  {
  }

  /** Toggling keeps the other entries in their order: the result without
      `id` is the input without `id`. */
  lemma ToggleKeepsOthersInOrder(selection: seq<string>, id: string)
    ensures Without(Toggled(selection, id), id) == Without(selection, id)
  {
    if id !in selection {
      WithoutAppended(selection, id);
      FilterKeepsAll(selection, IsNot(id));
    } else {
      FilterKeepsAll(Without(selection, id), IsNot(id));
    }
  }

  /** Toggling never creates a duplicate. */
  lemma ToggleKeepsDistinct(selection: seq<string>, id: string)
    requires Distinct(selection)
    ensures Distinct(Toggled(selection, id))
  {
    if id in selection {
      FilterDistinct(selection, IsNot(id));
    }
  }

  /** The selection after `handleSelectAll`. */
  function AfterSelectAll(selection: seq<string>, docs: seq<Document>): (r: seq<string>)
    ensures |selection| == |docs| ==> r == []
    ensures |selection| != |docs| ==> r == Ids(docs)
  {
    if |selection| == |docs| then [] else Ids(docs)
  }

  /** Pressing select-all twice from a partial selection ends empty. */
  lemma SelectAllTwiceClears(selection: seq<string>, docs: seq<Document>)
    requires |selection| != |docs|
    ensures AfterSelectAll(AfterSelectAll(selection, docs), docs) == []
  {
  }

  /** Whether the header box is drawn checked. */
  function HeaderChecked(selection: seq<string>, docs: seq<Document>): bool
  {
    |selection| == |docs| && |docs| > 0
  }

  /** Every selected id names a document. */
  ghost predicate FromCatalog(selection: seq<string>, docs: seq<Document>)
  {
    forall i :: 0 <= i < |selection| ==> selection[i] in Ids(docs)
  }

  /** The header compares lengths only, but with a duplicate-free selection of
      document ids a checked header means every document is selected. */
  lemma {:induction false} CheckedHeaderMeansAllSelected(selection: seq<string>, docs: seq<Document>)
    requires Distinct(selection) && Distinct(Ids(docs))
    requires FromCatalog(selection, docs)
    requires HeaderChecked(selection, docs)
    ensures forall i :: 0 <= i < |docs| ==> docs[i].id in selection
  {
    var ids := Ids(docs);
    var chosen := set i | 0 <= i < |selection| :: selection[i];
    var all := set i | 0 <= i < |ids| :: ids[i];
    DistinctCardinality(selection);
    DistinctCardinality(ids);
    assert chosen <= all;
    SubsetOfSameSize(chosen, all);
    forall i | 0 <= i < |docs| ensures docs[i].id in selection {
      assert ids[i] in all;
    }
  }

  /** A subset as large as its superset is the whole set. */
  lemma SubsetOfSameSize(small: set<string>, big: set<string>)
    requires small <= big && |small| == |big|
    ensures big <= small
  {
    var missing := big - small;
    assert big == small + missing && small * missing == {};
    assert |big| == |small| + |missing|;
  }

  /** `documents.slice(0, 3)`. */
  function RecentDocuments(docs: seq<Document>): (r: seq<Document>)
    ensures |r| == if |docs| < 3 then |docs| else 3
    ensures r == docs[..|r|]
  {
    SliceTo(docs, 3)
  }

  function IsShared(doc: Document): bool
  {
    doc.shared
  }

  /** `documents.filter(doc => doc.shared)`. */
  function SharedDocuments(docs: seq<Document>): (r: seq<Document>)
    ensures forall i :: 0 <= i < |r| ==> r[i].shared && r[i] in docs
    ensures forall i :: 0 <= i < |docs| && docs[i].shared ==> docs[i] in r
  {
    Filter(docs, IsShared)
  }

  /** The shared list keeps the page order: it splits along any split of the
      input. */
  lemma SharedDocumentsInOrder(a: seq<Document>, b: seq<Document>)
    ensures SharedDocuments(a + b) == SharedDocuments(a) + SharedDocuments(b)
  {
    FilterAppend(a, b, IsShared);
  }

  /** On the page's own data the selection logic starts well. */
  lemma CatalogFacts()
    ensures Ids(Catalog) == ["1", "2", "3", "4", "5", "6"]
    ensures Distinct(Ids(Catalog))
    ensures RecentDocuments(Catalog) == Catalog[..3]
    ensures HeaderChecked(Ids(Catalog), Catalog)
  {
  }

  /** The owner avatar fallback in each shared row. */
  function OwnerInitials(doc: Document): string
  {
    Text.Initials(doc.ownerName)
  }

  /** Every owner on the page is written `First L`, so each avatar shows two
      letters: the owner's first letter and the initial of the surname. */
  lemma {:induction false} CatalogOwnerInitials()
    ensures forall i :: 0 <= i < |Catalog| ==>
              OwnerInitials(Catalog[i]) == [Catalog[i].ownerName[0], Catalog[i].ownerName[|Catalog[i].ownerName| - 1]]
  {
    forall i | 0 <= i < |Catalog|
      ensures OwnerInitials(Catalog[i]) == [Catalog[i].ownerName[0], Catalog[i].ownerName[|Catalog[i].ownerName| - 1]]
    {
      var name := Catalog[i].ownerName;
      var k := |name| - 2;
      OwnerNameShape(i);
      assert name == name[..k] + " " + name[k + 1..];
      Text.InitialsOfTwoWords(name[..k], name[k + 1..]);
    }
  }

  /** Each owner name is a space-free first name, one space and one letter. */
  lemma OwnerNameShape(i: nat)
    requires i < |Catalog|
    ensures var name := Catalog[i].ownerName;
      |name| >= 3 && name[|name| - 2] == ' ' && ' ' !in name[..|name| - 2]
  {
  }

  class DocumentsPage {
    const documents: seq<Document>
    /** The `selectedItems` state. */
    var selectedItems: seq<string>

    /** The documents have distinct ids, and the selection holds no
        duplicates and only ids of listed documents. */
    ghost predicate Valid()
      reads this
    {
      Distinct(Ids(documents)) && Distinct(selectedItems) && FromCatalog(selectedItems, documents)
    }

    constructor ()
      ensures documents == Catalog && selectedItems == []
      ensures Valid()
    {
      documents := Catalog;
      selectedItems := [];
      CatalogFacts();
    }

    /** `toggleItemSelection(id)`; every row passes its own `doc.id`. */
    method ToggleItemSelection(id: string)
      requires Valid()
      modifies this
      ensures selectedItems == Toggled(old(selectedItems), id)
      ensures id in Ids(documents) ==> Valid()
      ensures Distinct(selectedItems)
    {
      ToggleKeepsDistinct(selectedItems, id);
      if id in selectedItems {
        selectedItems := Filter(selectedItems, IsNot(id));
      } else {
        selectedItems := selectedItems + [id];
      }
    }

    /** `handleSelectAll`. */
    method HandleSelectAll()
      requires Valid()
      modifies this
      ensures selectedItems == AfterSelectAll(old(selectedItems), documents)
      ensures Valid()
    {
      if |selectedItems| == |documents| {
        selectedItems := [];
      } else {
        selectedItems := Ids(documents);
      }
    }
  }
}
