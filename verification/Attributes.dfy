/** Attribute lists: looked up by name, with at most one entry a name. */
module Attributes {
  import opened CStrings
  import opened XmlText

  /** The value stored under a name; None when the name is missing or stored without a value. */
  function GetAttr(attrs: seq<Attr>, name: CStr): Option<CStr> {
    if attrs == [] then None
    else if attrs[0].name == name then attrs[0].value
    else GetAttr(attrs[1..], name)
  }

  /** Overwrite the value of a name that is there, otherwise append. */
  function SetAttr(attrs: seq<Attr>, name: CStr, value: Option<CStr>): seq<Attr> {
    if attrs == [] then [Attr(name, value)]
    else if attrs[0].name == name then [Attr(name, value)] + attrs[1..]
    else [attrs[0]] + SetAttr(attrs[1..], name, value)
  }

  ghost predicate DistinctNames(attrs: seq<Attr>) {
    forall i, j | 0 <= i < j < |attrs| :: attrs[i].name != attrs[j].name
  }

  lemma {:induction false} GetAttrMissing(attrs: seq<Attr>, name: CStr)
    requires forall i | 0 <= i < |attrs| :: attrs[i].name != name
    ensures GetAttr(attrs, name).None?
    ensures forall value :: SetAttr(attrs, name, value) == attrs + [Attr(name, value)]
  {
    if attrs != [] {
      GetAttrMissing(attrs[1..], name);
      forall value ensures SetAttr(attrs, name, value) == attrs + [Attr(name, value)] {
        assert SetAttr(attrs[1..], name, value) == attrs[1..] + [Attr(name, value)];
        assert attrs + [Attr(name, value)] == [attrs[0]] + (attrs[1..] + [Attr(name, value)]);
      }
    }
  }

  lemma {:induction false} AttrAt(attrs: seq<Attr>, i: nat, value: Option<CStr>)
    requires i < |attrs| && forall j | 0 <= j < i :: attrs[j].name != attrs[i].name
    ensures GetAttr(attrs, attrs[i].name) == attrs[i].value
    ensures SetAttr(attrs, attrs[i].name, value) == attrs[i := Attr(attrs[i].name, value)]
  {
    if i > 0 {
      assert attrs[1..][i - 1] == attrs[i];
      forall j | 0 <= j < i - 1 ensures attrs[1..][j].name != attrs[i].name { assert attrs[1..][j] == attrs[j + 1]; }
      AttrAt(attrs[1..], i - 1, value);
    }
  }

  /** Setting changes what is found under that name and under no other. */
  lemma {:induction false} GetAfterSet(attrs: seq<Attr>, name: CStr, value: Option<CStr>, other: CStr)
    ensures GetAttr(SetAttr(attrs, name, value), other) == if other == name then value else GetAttr(attrs, other)
  {
    if attrs != [] && attrs[0].name != name {
      GetAfterSet(attrs[1..], name, value, other);
      assert SetAttr(attrs, name, value)[1..] == SetAttr(attrs[1..], name, value);
    } else {
      assert SetAttr(attrs, name, value)[1..] == if attrs == [] then [] else attrs[1..];
    }
  }

  /** Setting keeps names distinct: it never adds a name that is there. */
  lemma {:induction false} SetKeepsDistinct(attrs: seq<Attr>, name: CStr, value: Option<CStr>)
    requires DistinctNames(attrs)
    ensures DistinctNames(SetAttr(attrs, name, value))
  {
    if i :| 0 <= i < |attrs| && attrs[i].name == name {
      AttrAt(attrs, i, value);
    } else {
      GetAttrMissing(attrs, name);
      assert SetAttr(attrs, name, value) == attrs + [Attr(name, value)];
    }
  }

  /** The loop of mxmlElementGetAttr. */
  method FindAttr(attrs: seq<Attr>, name: CStr) returns (value: Option<CStr>)
    ensures value == GetAttr(attrs, name)
  {
    var i := 0;
    while i < |attrs|
      invariant i <= |attrs|
      invariant forall j | 0 <= j < i :: attrs[j].name != name
    {
      if attrs[i].name == name {
        AttrAt(attrs, i, None);
        return attrs[i].value;
      }
      i := i + 1;
    }
    GetAttrMissing(attrs, name);
    return None;
  }

  /** The loop of mxml_set_attr. */
  method StoreAttr(attrs: seq<Attr>, name: CStr, value: Option<CStr>) returns (r: seq<Attr>)
    ensures r == SetAttr(attrs, name, value)
  {
    var i := 0;
    while i < |attrs|
      invariant i <= |attrs|
      invariant forall j | 0 <= j < i :: attrs[j].name != name
    {
      if attrs[i].name == name {
        AttrAt(attrs, i, value);
        return attrs[i := Attr(name, value)];
      }
      i := i + 1;
    }
    GetAttrMissing(attrs, name);
    return attrs + [Attr(name, value)];
  }
}
