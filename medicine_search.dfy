/**
 * The medicine catalogue entries and the search box over them: an empty term shows the
 * first ten entries; any other term keeps, in catalogue order, the entries whose name,
 * category or description contains it, ignoring letter case.
 */
module MedicineSearch {
  import opened Wrappers
  import opened Seqs
  import opened Text

  datatype Medicine = Medicine(id: string, name: string, category: string, description: string)

  /** `medicines.find(med => med.id === id)`. */
  function FindMedicine(catalogue: seq<Medicine>, id: string): (m: Option<Medicine>)
    ensures m.Some? ==> m.value.id == id && m.value in catalogue
    ensures m.None? ==> forall i :: 0 <= i < |catalogue| ==> catalogue[i].id != id
    ensures m.Some? ==> exists k :: 0 <= k < |catalogue| && catalogue[k] == m.value && forall j :: 0 <= j < k ==> catalogue[j].id != id
  {
    Find(catalogue, (x: Medicine) => x.id == id)
  }

  /** The search test for one entry, with the term already lower-cased. */
  predicate Matches(m: Medicine, lowerTerm: string) {
    Contains(ToLower(m.name), lowerTerm) ||
    Contains(ToLower(m.category), lowerTerm) ||
    Contains(ToLower(m.description), lowerTerm)
  }

  /** How many entries an empty term shows. */
  const DefaultCount := 10

  /** `filteredMedicines` for the term `term`. */
  function Search(catalogue: seq<Medicine>, term: string): (out: seq<Medicine>)
    ensures term == [] ==> out == catalogue[..if |catalogue| < DefaultCount then |catalogue| else DefaultCount]
    ensures term != [] ==> forall i :: 0 <= i < |out| ==> out[i] in catalogue && Matches(out[i], ToLower(term))
    ensures term != [] ==> forall i :: 0 <= i < |catalogue| && Matches(catalogue[i], ToLower(term)) ==> catalogue[i] in out
  {
    if term == [] then catalogue[..if |catalogue| < DefaultCount then |catalogue| else DefaultCount]
    else
      var lowerCaseSearch := ToLower(term);
      Filter(catalogue, (m: Medicine) => Matches(m, lowerCaseSearch))
  }

  /** Whatever the term, the entries shown keep their catalogue order. */
  lemma {:induction false} SearchKeepsOrder(catalogue: seq<Medicine>, term: string)
    ensures IsSubsequence(Search(catalogue, term), catalogue)
  {
    if term == [] {
      PrefixIsSubsequence(catalogue, if |catalogue| < DefaultCount then |catalogue| else DefaultCount);
    } else {
      FilterIsSubsequence(catalogue, (m: Medicine) => Matches(m, ToLower(term)));
    }
  }

  /** Terms that differ only in the case of their letters show the same entries. */
  lemma CaseDoesNotMatter(catalogue: seq<Medicine>, a: string, b: string)
    requires ToLower(a) == ToLower(b)
    ensures Search(catalogue, a) == Search(catalogue, b)
  {
    assert |a| == |b|;
  }

  /** Lower-casing is idempotent, so a lower-cased term shows what the original shows. */
  lemma {:induction false} LowerTermSameResult(catalogue: seq<Medicine>, term: string)
    ensures Search(catalogue, ToLower(term)) == Search(catalogue, term)
  {
    assert ToLower(ToLower(term)) == ToLower(term) by {
      forall i | 0 <= i < |term|
        ensures ToLower(ToLower(term))[i] == ToLower(term)[i]
      {
        var c := term[i];
        assert LowerChar(LowerChar(c)) == LowerChar(c);
      }
    }
    CaseDoesNotMatter(catalogue, ToLower(term), term);
  }
}
