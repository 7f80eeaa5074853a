/**
 * `replace_all` and `get_brick_from_ifc_type` (code/utils.py): resolving an IFC type name to a Brick
 * name by override, then by matching against an ordered Brick name table, then by a fallback.
 */
module TypeResolution {
  import opened Wrappers
  import opened Strings

  /** Characters removed from a Brick table name before comparing. */
  const Separators: string := " _."

  /** The text removed from an IFC type name before comparing. */
  const IfcPrefix: string := "ifc"

  /** The `name` columns of the Brick class and property tables, in table order. */
  datatype Tables = Tables(classes: seq<string>, properties: seq<string>)

  /** The table `get_brick_from_ifc_type` scans: classes when `classOnt`, properties otherwise. */
  function TableOf(tables: Tables, classOnt: bool): seq<string>
  {
    if classOnt then tables.classes else tables.properties
  }

  /** `s.replace(c, replacement)` for a one-character `c`. */
  function ReplaceChar(s: string, c: char, replacement: string): string
  {
    if s == [] then []
    else (if s[0] == c then replacement else [s[0]]) + ReplaceChar(s[1..], c, replacement)
  }

  /** What `replace_all` computes: one `replace` per character of `toReplace`, in order. */
  function Replaced(s: string, toReplace: string, replacement: string): string
    decreases |toReplace|
  {
    if toReplace == [] then s
    else
      var n := |toReplace| - 1;
      ReplaceChar(Replaced(s, toReplace[..n], replacement), toReplace[n], replacement)
  }

  /** Reference definition: the characters of `s` not in `chars`, in their order. */
  function Strip(s: string, chars: string): string
  {
    if s == [] then []
    else (if s[0] in chars then [] else [s[0]]) + Strip(s[1..], chars)
  }

  /** `replace_all(string, to_replace, replacement)`: reassigns `string` once per character to replace. */
  method ReplaceAll(s: string, toReplace: string, replacement: string) returns (r: string)
    ensures r == Replaced(s, toReplace, replacement)
  {
    r := s;
    for i := 0 to |toReplace|
      invariant r == Replaced(s, toReplace[..i], replacement)
    {
      assert toReplace[..i + 1][..i] == toReplace[..i];
      r := ReplaceChar(r, toReplace[i], replacement);
    }
    assert toReplace[..|toReplace|] == toReplace;
  }

  lemma {:induction false} ReplaceCharAfterStrip(s: string, chars: string, c: char)
    ensures ReplaceChar(Strip(s, chars), c, "") == Strip(s, chars + [c])
  {
    if s != [] {
      ReplaceCharAfterStrip(s[1..], chars, c);
      var head := if s[0] in chars then [] else [s[0]];
      assert Strip(s, chars) == head + Strip(s[1..], chars);
      ReplaceCharConcat(head, Strip(s[1..], chars), c);
    }
  }

  lemma {:induction false} ReplaceCharConcat(a: string, b: string, c: char)
    ensures ReplaceChar(a + b, c, "") == ReplaceChar(a, c, "") + ReplaceChar(b, c, "")
  {
    if a != [] {
      assert (a + b)[1..] == a[1..] + b;
      ReplaceCharConcat(a[1..], b, c);
    } else {
      assert a + b == b;
    }
  }

  /** With an empty replacement, `replace_all` deletes exactly the characters of `toReplace`. */
  lemma {:induction false} ReplaceAllDeletes(s: string, toReplace: string)
    ensures Replaced(s, toReplace, "") == Strip(s, toReplace)
    decreases |toReplace|
  {
    if toReplace == [] {
      StripNothing(s);
    } else {
      var n := |toReplace| - 1;
      ReplaceAllDeletes(s, toReplace[..n]);
      ReplaceCharAfterStrip(s, toReplace[..n], toReplace[n]);
      assert toReplace[..n] + [toReplace[n]] == toReplace;
    }
  }

  lemma {:induction false} StripNothing(s: string)
    ensures Strip(s, []) == s
  {
    if s != [] {
      StripNothing(s[1..]);
    }
  }

  /** No character of `chars` is left, and a character outside `chars` is never removed from a string that has only such. */
  lemma {:induction false} StripRemovesExactly(s: string, chars: string)
    ensures forall i :: 0 <= i < |Strip(s, chars)| ==> Strip(s, chars)[i] !in chars
    ensures (forall i :: 0 <= i < |s| ==> s[i] !in chars) ==> Strip(s, chars) == s
  {
    if s != [] {
      StripRemovesExactly(s[1..], chars);
      var head := if s[0] in chars then [] else [s[0]];
      var r := Strip(s, chars);
      assert r == head + Strip(s[1..], chars);
      forall i | 0 <= i < |r| ensures r[i] !in chars {
        if i >= |head| {
          assert r[i] == Strip(s[1..], chars)[i - |head|];
        }
      }
      if forall i :: 0 <= i < |s| ==> s[i] !in chars {
        assert forall i :: 0 <= i < |s[1..]| ==> s[1..][i] == s[i + 1];
      }
    }
  }

  /** With an empty replacement, `replace_all` leaves none of `toReplace` and a second application changes nothing. */
  lemma ReplaceAllIdempotent(s: string, toReplace: string)
    ensures forall i :: 0 <= i < |Replaced(s, toReplace, "")| ==> Replaced(s, toReplace, "")[i] !in toReplace
    ensures Replaced(Replaced(s, toReplace, ""), toReplace, "") == Replaced(s, toReplace, "")
  {
    var once := Replaced(s, toReplace, "");
    ReplaceAllDeletes(s, toReplace);
    ReplaceAllDeletes(once, toReplace);
    StripRemovesExactly(s, toReplace);
    StripRemovesExactly(once, toReplace);
  }

  /** The Brick table name as compared: lower-cased, separators removed (line 139). */
  function CleanName(name: string): string
  {
    Replaced(Lower(name), Separators, "")
  }

  /** The IFC type as compared: lower-cased, every `ifc` removed; separators are kept (line 140). */
  function CleanIfcType(ifcType: string): string
  {
    RemoveAll(Lower(ifcType), IfcPrefix)
  }

  /** The match condition of line 141. */
  predicate Matches(name: string, ifcType: string, strict: bool)
  {
    if strict then CleanName(name) == CleanIfcType(ifcType)
    else IsSubstring(CleanName(name), CleanIfcType(ifcType))
  }

  /** The first table position whose name matches, if any. */
  function FirstMatch(names: seq<string>, ifcType: string, strict: bool): (r: Option<nat>)
    ensures r.Some? ==> r.value < |names| && Matches(names[r.value], ifcType, strict)
    ensures r.Some? ==> forall j :: 0 <= j < r.value ==> !Matches(names[j], ifcType, strict)
    ensures r.None? ==> forall j :: 0 <= j < |names| ==> !Matches(names[j], ifcType, strict)
  {
    if names == [] then None
    else if Matches(names[0], ifcType, strict) then Some(0)
    else match FirstMatch(names[1..], ifcType, strict)
      case None => None
      case Some(i) => Some(i + 1)
  }

  /** What `get_brick_from_ifc_type` returns: the override, else the first matching table name, else the base case. */
  function Resolve(ifcType: string, definedMap: map<string, string>, baseCase: Option<string>,
                   names: seq<string>, strict: bool): (r: Option<string>)
    ensures baseCase.Some? ==> r.Some?
  {
    if ifcType in definedMap then Some(definedMap[ifcType])
    else match FirstMatch(names, ifcType, strict)
      case Some(i) => Some(names[i])
      case None => baseCase
  }

  /** `get_brick_from_ifc_type`: the override check, then a scan of the table with early return. */
  method GetBrickFromIfcType(ifcType: string, definedMap: map<string, string>, baseCase: Option<string>,
                             classOnt: bool, strict: bool, tables: Tables) returns (r: Option<string>)
    ensures r == Resolve(ifcType, definedMap, baseCase, TableOf(tables, classOnt), strict)
  {
    if ifcType in definedMap {
      return Some(definedMap[ifcType]);
    }
    var names := TableOf(tables, classOnt);
    for i := 0 to |names|
      invariant forall j :: 0 <= j < i ==> !Matches(names[j], ifcType, strict)
    {
      var cleanName := ReplaceAll(Lower(names[i]), Separators, "");
      var cleanIfc := RemoveAll(Lower(ifcType), IfcPrefix);
      if (strict && cleanName == cleanIfc) || (!strict && IsSubstring(cleanName, cleanIfc)) {
        assert Matches(names[i], ifcType, strict);
        return Some(names[i]);
      }
    }
    return baseCase;
  }

  /** An override wins whatever the table holds (lines 133-134). */
  lemma ResolveOverride(ifcType: string, definedMap: map<string, string>, baseCase: Option<string>,
                        names: seq<string>, strict: bool)
    requires ifcType in definedMap
    ensures Resolve(ifcType, definedMap, baseCase, names, strict) == Some(definedMap[ifcType])
  {
  }

  /** Without an override the result is the first matching table name; no earlier name matches (lines 138-142). */
  lemma ResolveFirstMatch(ifcType: string, definedMap: map<string, string>, baseCase: Option<string>,
                          names: seq<string>, strict: bool, i: nat)
    requires ifcType !in definedMap
    requires i < |names| && Matches(names[i], ifcType, strict)
    requires forall j :: 0 <= j < i ==> !Matches(names[j], ifcType, strict)
    ensures Resolve(ifcType, definedMap, baseCase, names, strict) == Some(names[i])
  {
    var k := FirstMatch(names, ifcType, strict);
    assert k.Some?;
    assert !(k.value < i) && !(i < k.value);
  }

  /** A result other than the override and the base case is a table name, and the first one that matches. */
  lemma ResolveFromTable(ifcType: string, definedMap: map<string, string>, baseCase: Option<string>,
                         names: seq<string>, strict: bool, n: string)
    requires ifcType !in definedMap
    requires Resolve(ifcType, definedMap, baseCase, names, strict) == Some(n) && baseCase != Some(n)
    ensures exists i :: 0 <= i < |names| && names[i] == n && Matches(n, ifcType, strict) &&
                        forall j :: 0 <= j < i ==> !Matches(names[j], ifcType, strict)
  {
    var k := FirstMatch(names, ifcType, strict).value;
    assert names[k] == n;
  }

  /** With no override and no matching name the result is the base case (lines 116, 144). */
  lemma ResolveFallback(ifcType: string, definedMap: map<string, string>, baseCase: Option<string>,
                        names: seq<string>, strict: bool)
    requires ifcType !in definedMap
    requires forall j :: 0 <= j < |names| ==> !Matches(names[j], ifcType, strict)
    ensures Resolve(ifcType, definedMap, baseCase, names, strict) == baseCase
  {
  }

  /** Strict matching: the name with separators deleted equals the type with every `ifc` deleted. */
  lemma StrictMatchMeaning(name: string, ifcType: string)
    ensures Matches(name, ifcType, true) <==> Strip(Lower(name), " _.") == RemoveAll(Lower(ifcType), "ifc")
  {
    ReplaceAllDeletes(Lower(name), Separators);
  }

  /** Fuzzy matching: the name with separators deleted occurs inside the type with every `ifc` deleted. */
  lemma FuzzyMatchMeaning(name: string, ifcType: string)
    ensures Matches(name, ifcType, false) <==> IsSubstring(Strip(Lower(name), " _."), RemoveAll(Lower(ifcType), "ifc"))
  {
    ReplaceAllDeletes(Lower(name), Separators);
  }
}
