/** Order-keeping removal of duplicates and blanks (`_dedupe`, `dict.fromkeys`). */
module Deduping {
  import opened Sequences
  import opened Spreading

  function IsFilled(): string -> bool { (s: string) => s != "" }

  function NonBlank(values: seq<string>): seq<string> {
    Filter(values, IsFilled())
  }

  function Self(s: string): string { s }

  /** The non-blank values, each at its first occurrence. */
  function Deduped(values: seq<string>): seq<string> {
    KeysOf(NonBlank(values), Self)
  }

  /** `_dedupe`: keep a value unless it is blank or already seen. */
  method Dedupe(values: seq<string>) returns (out: seq<string>)
    ensures out == Deduped(values)
  {
    out := [];
    var seen: set<string> := {};
    for i := 0 to |values|
      invariant out == Deduped(values[..i])
      invariant forall v :: v in seen <==> v in out
    {
      var text := values[i];
      assert values[..i + 1][..i] == values[..i];
      assert text != "" ==> NonBlank(values[..i + 1])[..|NonBlank(values[..i])|] == NonBlank(values[..i]);
      if text == "" || text in seen {
        continue;
      }
      seen := seen + {text};
      out := out + [text];
    }
    assert values[..|values|] == values;
  }

  lemma KeysMembers(values: seq<string>, x: string)
    ensures x in KeysOf(values, Self) <==> x in values
  {
    if values != [] {
      assert values == values[..|values| - 1] + [values[|values| - 1]];
    }
  }

  lemma DedupedMeaning(values: seq<string>)
    ensures Distinct(Deduped(values))
    ensures forall x :: x in Deduped(values) <==> x in values && x != ""
  {
    KeysDistinct(NonBlank(values), Self);
    forall x ensures x in Deduped(values) <==> x in values && x != "" {
      FilterMembers(values, IsFilled(), x);
      KeysMembers(NonBlank(values), x);
    }
  }

  lemma {:induction false} KeysClean(values: seq<string>)
    requires Distinct(values)
    ensures KeysOf(values, Self) == values
  {
    if values != [] {
      var init := values[..|values| - 1];
      assert values == init + [values[|values| - 1]];
      KeysClean(init);
      assert values[|values| - 1] !in init;
    }
  }
}
