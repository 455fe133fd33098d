/** `parse_name_to_node` of pns-types/src/lib.rs, which repeats the label rules of the registrar. */
module NameParsing {
  import opened Types
  import opened Labels

  const DOT: byte := 46

  /** The first position of a dot, or the length of the name when it has none. */
  function DotPosition(name: Bytes): (p: nat)
    ensures p <= |name|
    ensures forall i :: 0 <= i < p ==> name[i] != DOT
    ensures p < |name| ==> name[p] == DOT
  {
    if name == [] || name[0] == DOT then 0 else 1 + DotPosition(name[1..])
  }

  /** `validate_label`, on the lower-cased bytes. */
  predicate ValidateLabel(lab: Bytes) {
    && 1 <= |Lower(lab)| <= 63
    && forall i :: 0 <= i < |Lower(lab)| ==> IsAlphanumeric(Lower(lab)[i])
  }

  function HashLabel(lab: Bytes): Option<Bytes> {
    if ValidateLabel(lab) then Some(Lower(lab)) else None
  }

  function ParseNameToNode(name: Bytes, base: Node): Option<Node> {
    var dot := DotPosition(name);
    if dot < |name| then
      match HashLabel(name[dot + 1..])
      case None => None
      case Some(domain) =>
        match HashLabel(name[..dot])
        case None => None
        case Some(sub) => Some(Child(Child(base, domain), sub))
    else
      match HashLabel(name)
      case None => None
      case Some(domain) => Some(Child(base, domain))
  }

  function CountDots(name: Bytes): nat {
    if name == [] then 0 else (if name[0] == DOT then 1 else 0) + CountDots(name[1..])
  }

  /** Writes a node of depth one or two back as a name. */
  function Render(n: Node): Bytes
    requires n.Child?
  {
    if n.parent.Child? then n.lab + [DOT] + n.parent.lab else n.lab
  }

  /** A node that a name can denote: one or two normal labels under the base node. */
  predicate IsNameNode(n: Node, base: Node) {
    && n.Child?
    && IsNormal(n.lab)
    && (n.parent == base || (n.parent.Child? && n.parent.parent == base && IsNormal(n.parent.lab)))
  }

  lemma NormalHasNoDot(l: Bytes)
    requires IsNormal(l)
    ensures DOT !in l
  {
  }

  lemma LowerConcat(a: Bytes, b: Bytes)
    ensures Lower(a + b) == Lower(a) + Lower(b)
  {
  }

  /** Case never moves a dot. */
  lemma {:induction false} LowerKeepsDot(name: Bytes)
    ensures DotPosition(Lower(name)) == DotPosition(name)
  {
    if name != [] {
      assert Lower(name)[1..] == Lower(name[1..]);
      LowerKeepsDot(name[1..]);
    }
  }

  lemma {:induction false} DotPositionUnique(a: Bytes, b: Bytes)
    requires DOT !in a
    ensures DotPosition(a + [DOT] + b) == |a|
  {
    var p, name := DotPosition(a + [DOT] + b), a + [DOT] + b;
    assert name[|a|] == DOT;
    assert forall i :: 0 <= i < |a| ==> name[i] == a[i];
  }

  lemma {:induction false} CountDotsZero(name: Bytes)
    ensures CountDots(name) == 0 <==> DotPosition(name) == |name|
    ensures CountDots(name) == 0 <==> DOT !in name
  {
    if name != [] {
      CountDotsZero(name[1..]);
      assert name == [name[0]] + name[1..];
    }
  }

  lemma {:induction false} CountDotsSplit(name: Bytes)
    requires DotPosition(name) < |name|
    ensures CountDots(name) == 1 + CountDots(name[DotPosition(name) + 1..])
  {
    if name[0] != DOT {
      CountDotsSplit(name[1..]);
      assert name[1..][DotPosition(name[1..]) + 1..] == name[DotPosition(name) + 1..];
    }
  }

  /** The registrar's own reading of a name: a dotless name is one label under the base, a name with one
      dot is a label under a label, and a name with more dots is nothing. */
  function ByLabels(name: Bytes, base: Node): Option<Node> {
    CountDotsZero(name);
    if CountDots(name) == 0 then
      match NewWithLen(name)
      case None => None
      case Some(l) => Some(EncodeWithNode(l.0, base))
    else if CountDots(name) == 1 then
      var dot := DotPosition(name);
      match (NewWithLen(name[..dot]), NewWithLen(name[dot + 1..]))
      case (Some(sub), Some(domain)) => Some(EncodeWithNode(sub.0, EncodeWithNode(domain.0, base)))
      case _ => None
    else
      None
  }

  lemma DottedIsNoLabel(l: Bytes)
    requires DOT in l
    ensures HashLabel(l) == None
  {
    var k :| 0 <= k < |l| && l[k] == DOT;
    assert Lower(l)[k] == DOT;
  }

  lemma {:induction false} ParseAgreesWithLabels(name: Bytes, base: Node)
    ensures ParseNameToNode(name, base) == ByLabels(name, base)
  {
    CountDotsZero(name);
    var dot := DotPosition(name);
    if dot < |name| {
      CountDotsSplit(name);
      CountDotsZero(name[dot + 1..]);
      if CountDots(name) >= 2 {
        DottedIsNoLabel(name[dot + 1..]);
      }
    }
  }

  /** What an accepted name denotes can be written back, and gives the lower case of the name. */
  lemma {:induction false} RenderParse(name: Bytes, base: Node)
    requires !base.Child?
    requires ParseNameToNode(name, base).Some?
    ensures IsNameNode(ParseNameToNode(name, base).value, base)
    ensures Render(ParseNameToNode(name, base).value) == Lower(name)
  {
    var dot := DotPosition(name);
    if dot < |name| {
      var sub, domain := name[..dot], name[dot + 1..];
      assert name == sub + [DOT] + domain;
      LowerConcat(sub + [DOT], domain);
      LowerConcat(sub, [DOT]);
      assert Lower([DOT]) == [DOT];
      LowerIsNormal(sub);
      LowerIsNormal(domain);
    } else {
      LowerIsNormal(name);
    }
  }

  /** Every node of depth one or two with normal labels is the parse of its own text. */
  lemma {:induction false} ParseRender(n: Node, base: Node)
    requires !base.Child?
    requires IsNameNode(n, base)
    ensures ParseNameToNode(Render(n), base) == Some(n)
  {
    LowerIsNormal(n.lab);
    NormalHasNoDot(n.lab);
    if n.parent.Child? {
      LowerIsNormal(n.parent.lab);
      var name := n.lab + [DOT] + n.parent.lab;
      DotPositionUnique(n.lab, n.parent.lab);
      assert name[..|n.lab|] == n.lab;
      assert name[|n.lab| + 1..] == n.parent.lab;
    } else {
      CountDotsZero(n.lab);
    }
  }

  lemma HashOfLower(l: Bytes)
    ensures HashLabel(Lower(l)) == HashLabel(l)
  {
    LowerIsNormal(l);
  }

  lemma {:induction false} LowerParts(name: Bytes, k: nat)
    requires k <= |name|
    ensures Lower(name)[..k] == Lower(name[..k])
    ensures Lower(name)[k..] == Lower(name[k..])
  {
    LowerConcat(name[..k], name[k..]);
    assert name == name[..k] + name[k..];
  }

  lemma {:induction false} ParseOfLower(name: Bytes, base: Node)
    ensures ParseNameToNode(Lower(name), base) == ParseNameToNode(name, base)
  {
    LowerKeepsDot(name);
    HashOfLower(name);
    var dot := DotPosition(name);
    if dot < |name| {
      LowerParts(name, dot);
      LowerParts(name, dot + 1);
      HashOfLower(name[..dot]);
      HashOfLower(name[dot + 1..]);
    }
  }

  /** Two accepted names denote the same node exactly when they differ only in case, and case never
      decides whether a name is accepted. */
  lemma {:induction false} SameNodeIffSameLowerCase(a: Bytes, b: Bytes, base: Node)
    requires !base.Child?
    ensures Lower(a) == Lower(b) ==> ParseNameToNode(a, base) == ParseNameToNode(b, base)
    ensures ParseNameToNode(a, base).Some? && ParseNameToNode(a, base) == ParseNameToNode(b, base) ==>
              Lower(a) == Lower(b)
  {
    ParseOfLower(a, base);
    ParseOfLower(b, base);
    if ParseNameToNode(a, base).Some? && ParseNameToNode(a, base) == ParseNameToNode(b, base) {
      RenderParse(a, base);
      RenderParse(b, base);
    }
  }
}
