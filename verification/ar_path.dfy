/**
 * `arPath2xPath`: turning an AUTOSAR reference path such as "/Cluster/CAN" into
 * the XPath query the XPath-based reader evaluates, one SHORT-NAME step per path
 * element.
 */
module ArPath {
  import opened Wrappers
  import opened Text
  import opened SeqLemmas

  /** The step for an inner path element: find its SHORT-NAME anywhere below, then go to the owner. */
  function ShortNameStep(element: string): string
  {
    "//A:SHORT-NAME[text()='" + element + "']/.."
  }

  /** The step for the last element when the destination element type is known. */
  function DestStep(dest: string, element: string): string
  {
    "//A:" + dest + "/A:SHORT-NAME[text()='" + element + "']/.."
  }

  /** The steps for a run of inner path elements, in order. */
  function Steps(elements: seq<string>): (q: string)
    ensures elements == [] ==> q == ""
  {
    if elements == [] then "" else Steps(elements[..|elements| - 1]) + ShortNameStep(elements[|elements| - 1])
  }

  /** The step for the last path element: a typed one when `destElement` is a non-empty string. */
  function LastStep(last: string, destElement: Option<string>): string
  {
    if destElement.Some? && destElement.value != "" then DestStep(destElement.value, last) else ShortNameStep(last)
  }

  /** The path elements: `arPath.strip('/').split('/')`. */
  function PathElements(arPath: string): (elements: seq<string>)
    ensures |elements| >= 1
  {
    Split(Strip(arPath, '/'), '/')
  }

  /** The query for a path: ".", a step per inner element, then the step for the last element. */
  function XPathOf(arPath: string, destElement: Option<string>): string
  {
    var elements := PathElements(arPath);
    "." + Steps(elements[..|elements| - 1]) + LastStep(elements[|elements| - 1], destElement)
  }

  /** `arPath2xPath`, which builds the query with `+=` in a loop over the inner elements. */
  method ArPath2XPath(arPath: string, destElement: Option<string>) returns (xpath: string)
    ensures xpath == XPathOf(arPath, destElement)
    ensures xpath[0] == '.'
  {
    var elements := Split(Strip(arPath, '/'), '/');
    assert elements == PathElements(arPath);
    xpath := ".";
    var i := 0;
    while i < |elements| - 1
      invariant 0 <= i <= |elements| - 1
      invariant xpath == "." + Steps(elements[..i])
    {
      StepsStep(elements, i);
      xpath := xpath + ShortNameStep(elements[i]);
      i := i + 1;
    }
    var last := elements[|elements| - 1];
    if destElement.Some? && destElement.value != "" {
      xpath := xpath + DestStep(destElement.value, last);
    } else {
      xpath := xpath + ShortNameStep(last);
    }
    assert xpath == "." + Steps(elements[..|elements| - 1]) + LastStep(last, destElement);
  }

  lemma StepsStep(elements: seq<string>, i: nat)
    requires i < |elements|
    ensures "." + Steps(elements[..i + 1]) == "." + Steps(elements[..i]) + ShortNameStep(elements[i])
  {
    assert elements[..i + 1][..i] == elements[..i];
  }

  /**
   * For names free of '/', the first and last of them non-empty, the query for
   * their '/'-joined path (with any number of '/' around it) holds one
   * SHORT-NAME step per name but the last, in order, then the step for the last.
   */
  lemma {:induction false} XPathOfJoinedPath(names: seq<string>, lead: nat, trail: nat, destElement: Option<string>)
    requires |names| >= 1 && names[0] != [] && names[|names| - 1] != []
    requires forall i :: 0 <= i < |names| ==> '/' !in names[i]
    ensures XPathOf(Slashes(lead) + Join(names, '/') + Slashes(trail), destElement)
      == "." + Steps(names[..|names| - 1]) + LastStep(names[|names| - 1], destElement)
  {
    var p := Join(names, '/');
    JoinEnds(names);
    StripSlashesAround(p, lead, trail);
    SplitJoin(names, '/');
  }

  /** `n` slashes. */
  function Slashes(n: nat): (s: string)
    ensures |s| == n && forall i :: 0 <= i < n ==> s[i] == '/'
  {
    if n == 0 then "" else Slashes(n - 1) + "/"
  }

  /** A join of names whose first and last are non-empty and free of '/' neither starts nor ends with '/'. */
  lemma {:induction false} JoinEnds(names: seq<string>)
    requires |names| >= 1 && names[0] != [] && names[|names| - 1] != []
    requires forall i :: 0 <= i < |names| ==> '/' !in names[i]
    ensures var p := Join(names, '/'); p != [] && p[0] != '/' && p[|p| - 1] != '/'
  {
    if |names| > 1 {
      var rest := names[1..];
      JoinLastChar(rest);
    }
  }

  lemma {:induction false} JoinLastChar(names: seq<string>)
    requires |names| >= 1 && names[|names| - 1] != []
    ensures var p := Join(names, '/'); p != [] && p[|p| - 1] == names[|names| - 1][|names[|names| - 1]| - 1]
  {
    if |names| > 1 {
      JoinLastChar(names[1..]);
    }
  }

  /** Stripping '/' from a path that has no '/' at its own ends removes exactly the added slashes. */
  lemma StripSlashesAround(p: string, lead: nat, trail: nat)
    requires p != [] && p[0] != '/' && p[|p| - 1] != '/'
    ensures Strip(Slashes(lead) + p + Slashes(trail), '/') == p
  {
    var s := Slashes(lead) + p + Slashes(trail);
    var q := p + Slashes(trail);
    AppendAssoc(Slashes(lead), p, Slashes(trail));
    StripLeftSlashes(q, lead);
    StripRightSlashes(p, trail);
    assert StripRight(StripLeft(s, '/'), '/') == p;
  }

  lemma StripLeftSlashes(q: string, lead: nat)
    requires q != [] && q[0] != '/'
    ensures StripLeft(Slashes(lead) + q, '/') == q
  {
    var s := Slashes(lead) + q;
    var r := StripLeft(s, '/');
    var m := |s| - |r|;
    assert s[lead] == q[0];
    assert m <= lead;
    assert forall i :: 0 <= i < lead ==> s[i] == '/';
    assert r[0] == s[m];
    assert m == lead;
    assert s[lead..] == q;
  }

  lemma StripRightSlashes(q: string, trail: nat)
    requires q != [] && q[|q| - 1] != '/'
    ensures StripRight(q + Slashes(trail), '/') == q
  {
    var s := q + Slashes(trail);
    var r := StripRight(s, '/');
    assert s[|q| - 1] == q[|q| - 1];
    assert |r| >= |q|;
    assert forall i :: |q| <= i < |s| ==> s[i] == '/';
    assert r[|r| - 1] == s[|r| - 1];
    assert |r| == |q|;
    assert s[..|q|] == q;
  }
}
