/**
 Classification of object names into the product's own ("core") files and
 foreign library files (`audacity_files`, `Contex._is_audacity_file`).

 Each pattern is a regular expression applied with Python's `re.match`, which
 anchors at the start of the name only. The six patterns are a literal prefix
 followed either by `.*` (anything, including nothing) or by `.+` (at least
 one more character; `.` does not match a newline, so that character must not
 be '\n'). The table below keeps each pattern as data.
 */
module CoreNames {

  datatype Tail =
    | AnyTail       // `.*`
    | NonEmptyTail  // `.+`

  datatype Pattern = Pattern(prefix: string, tail: Tail)

  /** The six patterns, in the order they are tried. */
  const CorePatterns: seq<Pattern> := [
    Pattern("Audacity", AnyTail),
    Pattern("audacity", AnyTail),
    Pattern("lib-", NonEmptyTail),
    Pattern("mod-", NonEmptyTail),
    Pattern("crashreporter", AnyTail),
    Pattern("Wrapper", AnyTail)
  ]

  /** `pattern.match(name)` succeeds. */
  predicate Matches(p: Pattern, name: string)
  {
    && p.prefix <= name
    && match p.tail
       case AnyTail => true
       case NonEmptyTail => |name| > |p.prefix| && name[|p.prefix|] != '\n'
  }

  /** Some pattern of the table matches `name`. */
  predicate IsCore(name: string)
  {
    exists i :: 0 <= i < |CorePatterns| && Matches(CorePatterns[i], name)
  }

  /** The loop over the pattern table, returning at the first match. */
  method IsAudacityFile(name: string) returns (r: bool)
    ensures r <==> IsCore(name)
  {
    var k := 0;
    while k < |CorePatterns|
      invariant 0 <= k <= |CorePatterns|
      invariant forall j :: 0 <= j < k ==> !Matches(CorePatterns[j], name)
    {
      if Matches(CorePatterns[k], name) {
        return true;
      }
      k := k + 1;
    }
    return false;
  }

  /** The classification written out name by name, independently of the
      table: a name is core exactly when it starts with `Audacity`,
      `audacity`, `crashreporter` or `Wrapper`, or starts with `lib-` or `mod-`
      and has a further character that is not a newline. */
  predicate CoreByPrefix(name: string)
  {
    || "Audacity" <= name
    || "audacity" <= name
    || "crashreporter" <= name
    || "Wrapper" <= name
    || (|name| > 4 && (name[..4] == "lib-" || name[..4] == "mod-") && name[4] != '\n')
  }

  lemma {:induction false} IsCoreIffCoreByPrefix(name: string)
    ensures IsCore(name) <==> CoreByPrefix(name)
  {
    if CoreByPrefix(name) {
      if "Audacity" <= name {
        assert Matches(CorePatterns[0], name);
      } else if "audacity" <= name {
        assert Matches(CorePatterns[1], name);
      } else if "crashreporter" <= name {
        assert Matches(CorePatterns[4], name);
      } else if "Wrapper" <= name {
        assert Matches(CorePatterns[5], name);
      } else if name[..4] == "lib-" {
        assert Matches(CorePatterns[2], name);
      } else {
        assert Matches(CorePatterns[3], name);
      }
    }
    if IsCore(name) {
      var i :| 0 <= i < |CorePatterns| && Matches(CorePatterns[i], name);
      if i == 2 || i == 3 {
        assert CorePatterns[i].prefix == name[..4];
      }
    }
  }

  /** The bare prefixes `lib-` and `mod-` are foreign, as is such a prefix
      followed only by a newline: `.+` needs one more non-newline character. */
  lemma BarePrefixesForeign()
    ensures !IsCore("lib-") && !IsCore("mod-") && !IsCore("lib-\n")
  {
    IsCoreIffCoreByPrefix("lib-");
    IsCoreIffCoreByPrefix("mod-");
    IsCoreIffCoreByPrefix("lib-\n");
  }

  /** One core name per pattern; the `.*` patterns also accept their bare prefix. */
  lemma CoreExamples()
    ensures IsCore("lib-x") && IsCore("mod-plugin")
    ensures IsCore("Audacity") && IsCore("Audacity-1.2.3") && IsCore("audacity")
    ensures IsCore("crashreporter-x") && IsCore("Wrapper-y")
  {
    assert Matches(CorePatterns[2], "lib-x");
    assert Matches(CorePatterns[3], "mod-plugin");
    assert Matches(CorePatterns[0], "Audacity");
    assert Matches(CorePatterns[0], "Audacity-1.2.3");
    assert Matches(CorePatterns[1], "audacity");
    assert Matches(CorePatterns[4], "crashreporter-x");
    assert Matches(CorePatterns[5], "Wrapper-y");
  }

  /** Matching is case-sensitive and anchored at the start of the name. */
  lemma ForeignExamples()
    ensures !IsCore("foo.dylib") && !IsCore("AUDACITY") && !IsCore("xAudacity")
  {
    NotCoreByFirstChars("foo.dylib");
    NotCoreByFirstChars("xAudacity");
    NotCoreByFirstChars("AUDACITY");
  }

  /** A name whose first character starts none of the prefixes, or whose
      second character rules out the one prefix starting with its first, is
      foreign. */
  lemma NotCoreByFirstChars(name: string)
    requires |name| >= 2
    requires name[0] !in {'a', 'l', 'm', 'c', 'W'}
    requires name[0] == 'A' ==> name[1] != 'u'
    ensures !IsCore(name)
  {
    forall i | 0 <= i < |CorePatterns|
      ensures !Matches(CorePatterns[i], name)
    {
      var p := CorePatterns[i].prefix;
      if p[0] == 'A' && name[0] == 'A' {
        DiffersAt(p, name, 1);
      } else {
        DiffersAt(p, name, 0);
      }
    }
  }

  /** A name that differs from a prefix at some position does not start with it. */
  lemma DiffersAt(prefix: string, name: string, k: nat)
    requires k < |prefix| && k < |name| && prefix[k] != name[k]
    ensures !(prefix <= name)
    ensures |name| >= |prefix| ==> name[..|prefix|] != prefix
  {
  }
}
