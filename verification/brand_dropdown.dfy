/** The brand dropdown: turning the fetched brand strings into brands, the
    value-change handler and the value shown by the select.
 */
module BrandDropdown {
  import opened Base
  import opened Seqs
  import opened Types
  import CodePicker

  /** Each fetched string becomes a brand whose code and name are that string
      and whose description is empty. */
  function ToBrands(brandStrings: seq<string>): (brands: seq<Brand>)
    ensures |brands| == |brandStrings|
    ensures forall i :: 0 <= i < |brands| ==>
              brands[i].code == brandStrings[i] && brands[i].name == brandStrings[i]
              && brands[i].description == Some("")
  {
    seq(|brandStrings|, i requires 0 <= i < |brandStrings| => Brand(brandStrings[i], brandStrings[i], Some("")))
  }

  function BrandCodes(brands: seq<Brand>): seq<string>
  {
    seq(|brands|, i requires 0 <= i < |brands| => brands[i].code)
  }

  /** The conversion loses nothing: the codes read back are the strings fetched. */
  lemma BrandCodesOfToBrands(brandStrings: seq<string>)
    ensures BrandCodes(ToBrands(brandStrings)) == brandStrings
  {
  }

  /** The brand list after loading: the converted strings, or the list as it
      was when the fetch throws. */
  function LoadBrands(current: seq<Brand>, fetched: Attempt<seq<string>>): (r: seq<Brand>)
    ensures fetched.Threw? ==> r == current
    ensures fetched.Returned? ==> BrandCodes(r) == fetched.value
    ensures fetched.Returned? ==>
              forall i :: 0 <= i < |r| ==> r[i] == Brand(fetched.value[i], fetched.value[i], Some(""))
  {
    match fetched
    case Returned(strings) => BrandCodesOfToBrands(strings); ToBrands(strings)
    case Threw => current
  }

  function BrandCode(b: Brand): string
  {
    b.code
  }

  /** The value-change handler: `CodePicker.Pick` over the loaded brands. */
  function HandleValueChange(brands: seq<Brand>, value: string): Option<Brand>
  {
    CodePicker.Pick(brands, BrandCode, value)
  }

  /** The value the select shows: `CodePicker.Shown` of the selected brand. */
  function SelectValue(selected: Option<Brand>): string
  {
    CodePicker.Shown(selected, BrandCode)
  }

  /** After a successful load, choosing a fetched string selects the brand
      made from its first occurrence, unless the string is 'none'. */
  lemma PickAfterLoad(current: seq<Brand>, strings: seq<string>, i: nat)
    requires i < |strings| && strings[i] != CodePicker.NoneValue
    requires forall j :: 0 <= j < i ==> strings[j] != strings[i]
    ensures HandleValueChange(LoadBrands(current, Returned(strings)), strings[i])
            == Some(Brand(strings[i], strings[i], Some("")))
  {
    var brands := LoadBrands(current, Returned(strings));
    var r := HandleValueChange(brands, strings[i]);
    assert BrandCode(brands[i]) == strings[i];
    var k :| 0 <= k < |brands| && brands[k] == r.value && BrandCode(brands[k]) == strings[i]
             && forall j :: 0 <= j < k ==> BrandCode(brands[j]) != strings[i];
    assert k == i;
  }
}
