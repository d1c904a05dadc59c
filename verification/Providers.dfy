/** Providers of forecast data, and their names: a provider or `provider [placename]`. */
module Providers {
  import opened Text

  datatype ProviderItem = ProviderItem(provider: string, placename: string) {
    function Name(): string {
      if placename == "" then provider else provider + " [" + placename + "]"
    }
  }

  /** `ProviderList::decodeItem`. A name that cannot be decoded gives the empty item. */
  function DecodeItem(s: string): (r: ProviderItem) {
    var i := IndexOf(s, '[');
    if i == |s| then ProviderItem(s, "")
    else
      var provider := Trim(s[..i]);
      var rest := s[i + 1..];
      var j := IndexOf(rest, ']');
      if provider == "" || j == |rest| then ProviderItem("", "") else ProviderItem(provider, Unquoted(Trim(rest[..j])))
  }

  predicate IsQuoted(s: string) {
    |s| >= 2 && s[0] == '\'' && s[|s| - 1] == '\''
  }

  function Unquoted(s: string): (r: string) {
    if IsQuoted(s) then Trim(s[1..|s| - 1]) else s
  }

  /** Items whose parts survive the way into a name and back. */
  predicate IsNormal(item: ProviderItem) {
    && '[' !in item.provider
    && (item.placename != "" ==>
          && item.provider != "" && IsTrimmed(item.provider)
          && IsTrimmed(item.placename) && ']' !in item.placename && !IsQuoted(item.placename))
  }

  /** Decoding is the inverse of naming. */
  lemma DecodeName(item: ProviderItem)
    requires IsNormal(item)
    ensures DecodeItem(item.Name()) == item
  {
    var s := item.Name();
    if item.placename == "" {
      IndexOfIs(s, '[');
    } else {
      assert s == (item.provider + " ") + ['['] + (item.placename + "]");
      IndexOfFirst(item.provider + " ", '[', item.placename + "]");
      assert s[..|item.provider| + 1] == item.provider + " ";
      assert Trim(item.provider + " ") == item.provider by {
        assert (item.provider + " ")[..|item.provider|] == item.provider;
      }
      var rest := s[|item.provider| + 2..];
      assert rest == item.placename + [']'] + "";
      IndexOfFirst(item.placename, ']', "");
      assert rest[..|item.placename|] == item.placename;
    }
  }
}
