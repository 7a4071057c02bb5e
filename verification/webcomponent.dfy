/**
 The `<neo-confetti>` custom element's attribute handling: camelCase option
 names map to kebab-case attribute names, and the element's attributes are
 decoded group by group into an options record.
 */
module WebComponent {
  import opened Wrappers
  import opened Strings

  predicate IsUpper(c: char)
  {
    'A' <= c <= 'Z'
  }

  predicate NoUpper(s: string)
  {
    forall i :: 0 <= i < |s| ==> !IsUpper(s[i])
  }

  function ToLower(c: char): (r: char)
    requires IsUpper(c)
    ensures 'a' <= r <= 'z'
    ensures r as int - c as int == 32
  {
    (c as int + 32) as char
  }

  function ToUpper(c: char): (r: char)
    requires 'a' <= c <= 'z'
    ensures IsUpper(r)
    ensures c as int - r as int == 32
  {
    (c as int - 32) as char
  }

  function UpperCount(s: string): nat
  {
    if |s| == 0 then 0 else (if IsUpper(s[0]) then 1 else 0) + UpperCount(s[1..])
  }

  /** What the replacement callback makes of one character. */
  function KebabPiece(c: char): string
  {
    if IsUpper(c) then ['-', ToLower(c)] else [c]
  }

  /**
   `camel_to_kebab`: every `A`-`Z` becomes `-` and its lower case; every
   other character is kept. Its properties are the lemmas below.
   */
  function CamelToKebab(s: string): string
  {
    if |s| == 0 then "" else KebabPiece(s[0]) + CamelToKebab(s[1..])
  }

  /** The output never contains a capital letter. */
  lemma {:induction false} KebabNoUpper(s: string)
    ensures NoUpper(CamelToKebab(s))
    decreases |s|
  {
    if |s| > 0 {
      KebabNoUpper(s[1..]);
      var p := KebabPiece(s[0]);
      var rest := CamelToKebab(s[1..]);
      var r := p + rest;
      forall i | 0 <= i < |r| ensures !IsUpper(r[i]) {
        if i >= |p| {
          assert r[i] == rest[i - |p|];
        }
      }
    }
  }

  /** Each capital adds one character, the `-` in front of it. */
  lemma {:induction false} KebabLength(s: string)
    ensures |CamelToKebab(s)| == |s| + UpperCount(s)
    decreases |s|
  {
    if |s| > 0 {
      KebabLength(s[1..]);
    }
  }

  /** A string without capitals is returned unchanged. */
  lemma {:induction false} KebabIdentity(s: string)
    requires NoUpper(s)
    ensures CamelToKebab(s) == s
    decreases |s|
  {
    if |s| > 0 {
      assert !IsUpper(s[0]);
      forall i | 0 <= i < |s[1..]| ensures !IsUpper(s[1..][i]) {
        assert s[1..][i] == s[i + 1];
      }
      KebabIdentity(s[1..]);
      assert s == [s[0]] + s[1..];
    }
  }

  /** One character on its own: a capital becomes `-` and its lower case, anything else stays. */
  lemma KebabOfChar(c: char)
    ensures IsUpper(c) ==> CamelToKebab([c]) == ['-', ToLower(c)]
    ensures !IsUpper(c) ==> CamelToKebab([c]) == [c]
  {
    assert [c][1..] == [];
    assert CamelToKebab([c]) == KebabPiece(c) + CamelToKebab([c][1..]);
  }

  /** The replacement works character by character, so it distributes over `+`. */
  lemma {:induction false} KebabConcat(a: string, b: string)
    ensures CamelToKebab(a + b) == CamelToKebab(a) + CamelToKebab(b)
    decreases |a|
  {
    if |a| == 0 {
      assert a + b == b;
    } else {
      assert (a + b)[0] == a[0];
      assert (a + b)[1..] == a[1..] + b;
      KebabConcat(a[1..], b);
    }
  }

  /** Turns `-x` back into `X`; the inverse used to state that no information is lost. */
  function KebabToCamel(s: string): string
  {
    if |s| == 0 then ""
    else if |s| >= 2 && s[0] == '-' && 'a' <= s[1] <= 'z' then [ToUpper(s[1])] + KebabToCamel(s[2..])
    else [s[0]] + KebabToCamel(s[1..])
  }

  /** One kebab piece of a character other than `-` decodes back to that character. */
  lemma KebabToCamelPiece(c: char, t: string)
    requires c != '-'
    ensures KebabToCamel(KebabPiece(c) + t) == [c] + KebabToCamel(t)
  {
    var u := KebabPiece(c) + t;
    if IsUpper(c) {
      assert u[0] == '-' && u[1] == ToLower(c) && u[2..] == t;
      assert ToUpper(ToLower(c)) == c;
    } else {
      assert u[0] == c && u[1..] == t;
    }
  }

  /** A name without `-` is recovered from its kebab form, so distinct names get distinct attributes. */
  lemma {:induction false} KebabRoundTrip(s: string)
    requires '-' !in s
    ensures KebabToCamel(CamelToKebab(s)) == s
    decreases |s|
  {
    if |s| > 0 {
      assert '-' !in s[1..];
      KebabRoundTrip(s[1..]);
      KebabToCamelPiece(s[0], CamelToKebab(s[1..]));
      assert s == [s[0]] + s[1..];
    }
  }

  lemma KebabToCamelInjective(s: string, t: string)
    requires '-' !in s && '-' !in t
    requires CamelToKebab(s) == CamelToKebab(t)
    ensures s == t
  {
    KebabRoundTrip(s);
    KebabRoundTrip(t);
  }

  /** The option names `normalize_attributes` reads, by how each is decoded. */
  const NumberNames: seq<string> :=
    ["duration", "force", "particleCount", "particleSize", "stageHeight", "stageWidth"]
  const ArrayNames: seq<string> := ["colors"]
  const BooleanNames: seq<string> := ["destroyAfterDone"]
  const StringNames: seq<string> := ["particleClass", "particleShape"]

  /** All ten option names, group by group. */
  function OptionNames(): (names: seq<string>)
    ensures names == NumberNames + ArrayNames + BooleanNames + StringNames
    ensures |names| == 10
  {
    ["duration", "force", "particleCount", "particleSize", "stageHeight",
     "stageWidth", "colors", "destroyAfterDone", "particleClass", "particleShape"]
  }

  /** `InternalConfetti.observedAttributes`. */
  const ObservedAttributes: seq<string> := [
    "colors", "destroy-after-done", "duration", "force", "particle-class",
    "particle-count", "particle-shape", "particle-size", "stage-height", "stage-width"]

  /** A camelCase word with one capital: the capital becomes `-` and its lower case. */
  lemma KebabOfCompound(s: string, a: string, c: char, b: string, k: string)
    requires NoUpper(a) && IsUpper(c) && NoUpper(b)
    requires s == a + [c] + b && k == a + ['-', ToLower(c)] + b
    ensures CamelToKebab(s) == k
  {
    KebabConcat(a + [c], b);
    KebabConcat(a, [c]);
    KebabOfChar(c);
    KebabIdentity(a);
    KebabIdentity(b);
  }

  /** A camelCase word with two capitals. */
  lemma KebabOfCompound2(s: string, a: string, c: char, b: string, d: char, e: string, k: string)
    requires NoUpper(a) && IsUpper(c) && NoUpper(b) && IsUpper(d) && NoUpper(e)
    requires s == (a + [c] + b) + ([d] + e)
    requires k == (a + ['-', ToLower(c)] + b) + (['-', ToLower(d)] + e)
    ensures CamelToKebab(s) == k
  {
    var s1, k1 := a + [c] + b, a + ['-', ToLower(c)] + b;
    var s2, k2 := [d] + e, ['-', ToLower(d)] + e;
    KebabOfCompound(s1, a, c, b, k1);
    KebabOfCompound(s2, [], d, e, k2);
    KebabConcat(s1, s2);
  }

  /** The kebab-case attribute name of each option name, in the same order. */
  function KebabForms(): (forms: seq<string>)
    ensures |forms| == 10
  {
    ["duration", "force", "particle-count", "particle-size", "stage-height",
     "stage-width", "colors", "destroy-after-done", "particle-class", "particle-shape"]
  }

  /** The kebab form of every option name. */
  lemma KebabName(i: nat)
    requires i < 10
    ensures CamelToKebab(OptionNames()[i]) == KebabForms()[i]
  {
    if i < 4 {
      KebabNameNumbers(i);
    } else if i < 7 {
      KebabNameStage(i);
    } else {
      KebabNameRest(i);
    }
  }

  lemma KebabNameNumbers(i: nat)
    requires 0 <= i < 4
    ensures CamelToKebab(OptionNames()[i]) == KebabForms()[i]
  {
    var n := OptionNames()[i];
    if i == 0 {
      assert n == "duration";
      KebabIdentity(n);
    } else if i == 1 {
      assert n == "force";
      KebabIdentity(n);
    } else if i == 2 {
      KebabOfCompound(n, "particle", 'C', "ount", "particle-count");
    } else {
      KebabOfCompound(n, "particle", 'S', "ize", "particle-size");
    }
  }

  lemma KebabNameStage(i: nat)
    requires 4 <= i < 7
    ensures CamelToKebab(OptionNames()[i]) == KebabForms()[i]
  {
    var n := OptionNames()[i];
    if i == 4 {
      KebabOfCompound(n, "stage", 'H', "eight", "stage-height");
    } else if i == 5 {
      KebabOfCompound(n, "stage", 'W', "idth", "stage-width");
    } else {
      assert n == "colors";
      KebabIdentity(n);
    }
  }

  lemma KebabNameRest(i: nat)
    requires 7 <= i < 10
    ensures CamelToKebab(OptionNames()[i]) == KebabForms()[i]
  {
    var n := OptionNames()[i];
    if i == 7 {
      KebabOfCompound2(n, "destroy", 'A', "fter", 'D', "one", "destroy-after-done");
    } else if i == 8 {
      KebabOfCompound(n, "particle", 'C', "lass", "particle-class");
    } else {
      KebabOfCompound(n, "particle", 'S', "hape", "particle-shape");
    }
  }

  /** Where the attribute of option name `i` sits in `observedAttributes`. */
  function AttributeIndex(i: nat): (j: nat)
    requires i < 10
    ensures j < 10
    ensures KebabForms()[i] == ObservedAttributes[j]
  {
    [2, 3, 5, 7, 8, 9, 0, 1, 4, 6][i]
  }

  /**
   The observed attributes are exactly the kebab forms of the option names:
   every attribute the decoder reads triggers a change callback, and every
   observed attribute is read by the decoder.
   */
  lemma ObservedAttributesAgree()
    ensures forall n :: n in OptionNames() ==> CamelToKebab(n) in ObservedAttributes
    ensures forall a :: a in ObservedAttributes ==> exists n :: n in OptionNames() && CamelToKebab(n) == a
    ensures |ObservedAttributes| == |OptionNames()|
  {
    var names := OptionNames();
    forall i | 0 <= i < |names|
      ensures CamelToKebab(names[i]) in ObservedAttributes
    {
      KebabName(i);
      assert ObservedAttributes[AttributeIndex(i)] in ObservedAttributes;
    }
    var inverse := [6, 7, 0, 1, 8, 2, 9, 3, 4, 5];
    forall j | 0 <= j < |ObservedAttributes|
      ensures exists n :: n in names && CamelToKebab(n) == ObservedAttributes[j]
    {
      var i := inverse[j];
      KebabName(i);
      assert AttributeIndex(i) == j;
      assert names[i] in names;
    }
  }

  /** A decoded option value, as `normalize_attributes` stores it. */
  datatype Value = Num(n: real) | List(items: seq<string>) | Bool(b: bool) | Str(s: string)

  /**
   One loop of `normalize_attributes`: for each name whose kebab-case
   attribute is present and which `decode` accepts, the decoded value is
   stored under the camelCase name. Other keys are left as they were.
   */
  method DecodeGroup(attrs: map<string, string>, names: seq<string>,
                     decode: string -> Option<Value>, options: map<string, Value>)
    returns (out: map<string, Value>)
    ensures forall n :: n in out <==>
      n in options || (n in names && CamelToKebab(n) in attrs && decode(attrs[CamelToKebab(n)]).Some?)
    ensures forall n :: n in out ==>
      out[n] == if n in names && CamelToKebab(n) in attrs && decode(attrs[CamelToKebab(n)]).Some?
                then decode(attrs[CamelToKebab(n)]).value
                else options[n]
  {
    out := options;
    var i := 0;
    while i < |names|
      invariant 0 <= i <= |names|
      invariant forall n :: n in out <==>
        n in options || (n in names[..i] && CamelToKebab(n) in attrs && decode(attrs[CamelToKebab(n)]).Some?)
      invariant forall n :: n in out ==>
        out[n] == if n in names[..i] && CamelToKebab(n) in attrs && decode(attrs[CamelToKebab(n)]).Some?
                  then decode(attrs[CamelToKebab(n)]).value
                  else options[n]
    {
      var name := names[i];
      var key := CamelToKebab(name);
      if key in attrs {
        var v := decode(attrs[key]);
        if v.Some? {
          out := out[name := v.value];
        }
      }
      assert names[..i + 1] == names[..i] + [name];
      i := i + 1;
    }
    assert names[..i] == names;
  }

  function DecodeNumber(toNumber: string -> real): string -> Option<Value>
  {
    v => Some(Num(toNumber(v)))
  }

  /**
   The array loop's decoding: an empty attribute is skipped, any other is cut
   at each `,`. The list is described by what it is: its `,`-join is the
   attribute and no item holds a `,`, which by `Strings.SplitJoin` leaves
   only one candidate.
   */
  function DecodeArray(v: string): (r: Option<Value>)
    ensures r.Some? <==> v != ""
    ensures r.Some? ==>
      && r.value.List?
      && |r.value.items| >= 1
      && Join(r.value.items, ',') == v
      && (forall k :: 0 <= k < |r.value.items| ==> ',' !in r.value.items[k])
  {
    JoinSplit(v, ',');
    if v == "" then None else Some(List(Split(v, ',')))
  }

  function DecodeBoolean(v: string): Option<Value>
  {
    Some(Bool(v == "true"))
  }

  function DecodeString(v: string): Option<Value>
  {
    Some(Str(v))
  }

  /** Is the kebab-case attribute of option `n` present? */
  predicate Present(attrs: map<string, string>, n: string)
  {
    CamelToKebab(n) in attrs
  }

  /** No option name belongs to two groups, so no loop overwrites another's key. */
  lemma GroupsDisjoint()
    ensures forall n :: n in NumberNames ==> n !in ArrayNames && n !in BooleanNames && n !in StringNames
    ensures forall n :: n in ArrayNames ==> n !in BooleanNames && n !in StringNames
    ensures forall n :: n in BooleanNames ==> n !in StringNames
  {
  }

  /**
   `normalize_attributes`. The string-to-number conversion `+value` is the
   parameter `toNumber`.
   */
  method NormalizeAttributes(attrs: map<string, string>, toNumber: string -> real)
    returns (options: map<string, Value>)
    ensures forall n :: n in options ==> n in OptionNames()
    ensures forall n :: n in NumberNames ==>
      && (n in options <==> Present(attrs, n))
      && (n in options ==> options[n] == Num(toNumber(attrs[CamelToKebab(n)])))
    ensures forall n :: n in ArrayNames ==>
      && (n in options <==> Present(attrs, n) && attrs[CamelToKebab(n)] != "")
      && (n in options ==>
            && options[n].List?
            && |options[n].items| >= 1
            && Join(options[n].items, ',') == attrs[CamelToKebab(n)]
            && (forall k :: 0 <= k < |options[n].items| ==> ',' !in options[n].items[k]))
    ensures forall n :: n in BooleanNames ==>
      && (n in options <==> Present(attrs, n))
      && (n in options ==> options[n] == Bool(attrs[CamelToKebab(n)] == "true"))
    ensures forall n :: n in StringNames ==>
      && (n in options <==> Present(attrs, n))
      && (n in options ==> options[n] == Str(attrs[CamelToKebab(n)]))
  {
    GroupsDisjoint();
    var o1 := DecodeGroup(attrs, NumberNames, DecodeNumber(toNumber), map[]);
    var o2 := DecodeGroup(attrs, ArrayNames, DecodeArray, o1);
    var o3 := DecodeGroup(attrs, BooleanNames, DecodeBoolean, o2);
    options := DecodeGroup(attrs, StringNames, DecodeString, o3);
  }

  /** The colour attribute is the attribute named `colors`, and likewise `destroy-after-done`. */
  lemma AttributeNames()
    ensures ArrayNames == [OptionNames()[6]] && CamelToKebab(OptionNames()[6]) == "colors"
    ensures BooleanNames == [OptionNames()[7]] && CamelToKebab(OptionNames()[7]) == "destroy-after-done"
  {
    KebabName(6);
    KebabName(7);
  }
}
