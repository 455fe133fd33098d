/** Labels and their normal form: `Label` and `check_label` of pns-registrar/src/traits.rs. */
module Labels {
  import opened Types

  const LABEL_MIN_LEN := 1
  const LABEL_MAX_LEN := 63
  const MIN_REGISTRABLE_LEN := 1

  predicate IsAlphanumeric(b: byte) {
    || 48 <= b <= 57
    || 65 <= b <= 90
    || 97 <= b <= 122
  }

  function LowerByte(b: byte): byte {
    if 65 <= b <= 90 then b + 32 else b
  }

  /** ASCII lower case, byte by byte. */
  function Lower(data: Bytes): (r: Bytes)
    ensures |r| == |data|
    ensures forall i :: 0 <= i < |data| ==> r[i] == LowerByte(data[i])
  {
    if data == [] then [] else [LowerByte(data[0])] + Lower(data[1..])
  }

  predicate CheckLabel(data: Bytes) {
    && LABEL_MIN_LEN <= |Lower(data)| <= LABEL_MAX_LEN
    && forall i :: 0 <= i < |Lower(data)| ==> IsAlphanumeric(Lower(data)[i])
  }

  /** `Label::new`: the normal form of a valid label. */
  function NewLabel(data: Bytes): Option<Bytes> {
    if CheckLabel(data) then Some(Lower(data)) else None
  }

  /** `Label::new_with_len`. */
  function NewWithLen(data: Bytes): Option<(Bytes, nat)> {
    if CheckLabel(data) then Some((Lower(data), |Lower(data)|)) else None
  }

  /** `Label::encode_with_node`. */
  function EncodeWithNode(lab: Bytes, node: Node): Node {
    Child(node, lab)
  }

  /** A label in normal form: a non-empty run of at most 63 lower-case letters and digits. */
  predicate IsNormal(l: Bytes) {
    && LABEL_MIN_LEN <= |l| <= LABEL_MAX_LEN
    && forall i :: 0 <= i < |l| ==> IsAlphanumeric(l[i]) && LowerByte(l[i]) == l[i]
  }

  /** Lower-casing fixes exactly the normal labels among the valid ones, and a label is valid
      exactly when its lower case is. */
  lemma LowerIsNormal(data: Bytes)
    ensures CheckLabel(data) <==> IsNormal(Lower(data))
    ensures Lower(Lower(data)) == Lower(data)
    ensures IsNormal(data) ==> Lower(data) == data
  {
    assert forall i :: 0 <= i < |data| ==> LowerByte(Lower(data)[i]) == Lower(data)[i];
  }

  /** The alphabet in characters: digits, capitals and small letters. */
  lemma AlphabetExact(b: byte)
    ensures var c := b as char;
            IsAlphanumeric(b) <==> '0' <= c <= '9' || 'A' <= c <= 'Z' || 'a' <= c <= 'z'
  {
  }

  /** Lower case maps every capital to the small letter at the same place and keeps every other byte. */
  lemma LowerCaseExact(b: byte)
    ensures var c, l := b as char, LowerByte(b) as char;
            if 'A' <= c <= 'Z' then 'a' <= l <= 'z' && l as int - 'a' as int == c as int - 'A' as int else l == c
  {
  }

  /** A label is valid exactly when it has 1 to 63 bytes, all of them digits or letters of either case. */
  lemma LabelExact(data: Bytes)
    ensures CheckLabel(data) <==> 1 <= |data| <= 63 && forall i :: 0 <= i < |data| ==> IsAlphanumeric(data[i])
  {
    assert forall i :: 0 <= i < |data| ==> Lower(data)[i] == LowerByte(data[i]);
  }
}
