/** White space as Python strips it, and decimal digits. */
module Texts {

  /** The characters Python strips from the ends of a text. */
  predicate White(c: char) {
    || '\U{09}' <= c <= '\U{0D}' || '\U{1C}' <= c <= '\U{20}' || c in {'\U{85}', '\U{A0}', '\U{1680}', '\U{202F}', '\U{205F}', '\U{3000}'}
    || '\U{2000}' <= c <= '\U{200A}' || '\U{2028}' <= c <= '\U{2029}'
  }

  function RightStripped(line: string): (r: string)
    ensures r <= line && (r == [] || !White(r[|r| - 1])) && forall k :: |r| <= k < |line| ==> White(line[k])
  {
    if line == [] || !White(line[|line| - 1]) then line else RightStripped(line[..|line| - 1])
  }

  function LeftStripped(text: string): (r: string)
    ensures |r| <= |text| && r == text[|text| - |r|..] && (r == [] || !White(r[0]))
    ensures forall k :: 0 <= k < |text| - |r| ==> White(text[k])
  {
    if text == [] || !White(text[0]) then text else LeftStripped(text[1..])
  }

  predicate Digit(c: char) { '0' <= c <= '9' }

  predicate Digits(text: string) { text != [] && forall k :: 0 <= k < |text| ==> Digit(text[k]) }

  function Number(text: string): nat
    requires forall k :: 0 <= k < |text| ==> Digit(text[k])
  {
    if text == [] then 0 else
    var last := text[|text| - 1];
    assert Digit(last);
    Number(text[..|text| - 1]) * 10 + (last as int - '0' as int)
  }

  /** The shortest decimal text of a number. */
  function Show(n: nat): (r: string)
    ensures Digits(r) && Number(r) == n
  {
    var last := [(n % 10 + '0' as int) as char];
    assert last[..0] == [];
    if n < 10 then last else
    var r := Show(n / 10) + last;
    assert r[..|r| - 1] == Show(n / 10);
    r
  }
}
