/**
 * `convertCamelCaseToDashCase`: every ASCII capital letter is replaced by a
 * dash followed by its lower-case form (`reporterOptions` becomes
 * `reporter-options`). `CamelCase` is its inverse on names without dashes.
 */
module CaseConversion {

  predicate IsUpper(c: char) { 'A' <= c <= 'Z' }

  predicate IsLower(c: char) { 'a' <= c <= 'z' }

  function ToLower(c: char): char
    requires IsUpper(c)
  {
    (c as int + 32) as char
  }

  function ToUpper(c: char): char
    requires IsLower(c)
  {
    (c as int - 32) as char
  }

  /** `name.replace(/[A-Z]/g, m => '-' + m.toLowerCase())`. */
  function DashCase(name: string): string
  {
    if name == [] then []
    else (if IsUpper(name[0]) then ['-', ToLower(name[0])] else [name[0]]) + DashCase(name[1..])
  }

  /** Turns each dash followed by a lower-case letter back into the capital letter. */
  function CamelCase(flag: string): string
  {
    if flag == [] then []
    else if |flag| >= 2 && flag[0] == '-' && IsLower(flag[1]) then [ToUpper(flag[1])] + CamelCase(flag[2..])
    else [flag[0]] + CamelCase(flag[1..])
  }

  /** Dash-casing works character by character. */
  lemma {:induction false} DashCaseAppend(a: string, b: string)
    ensures DashCase(a + b) == DashCase(a) + DashCase(b)
  {
    if a != [] {
      assert (a + b)[1..] == a[1..] + b;
      DashCaseAppend(a[1..], b);
    } else {
      assert a + b == b;
    }
  }

  /** A dash-case name has no capital letters. */
  lemma {:induction false} DashCaseNoUpper(name: string)
    ensures forall i :: 0 <= i < |DashCase(name)| ==> !IsUpper(DashCase(name)[i])
  {
    if name != [] {
      DashCaseNoUpper(name[1..]);
      var head := if IsUpper(name[0]) then ['-', ToLower(name[0])] else [name[0]];
      var r := DashCase(name);
      forall i | 0 <= i < |r| ensures !IsUpper(r[i]) {
        if i >= |head| {
          assert r[i] == DashCase(name[1..])[i - |head|];
        }
      }
    }
  }

  /** A name without capital letters is its own dash-case form. */
  lemma {:induction false} DashCaseIdentity(name: string)
    requires forall i :: 0 <= i < |name| ==> !IsUpper(name[i])
    ensures DashCase(name) == name
  {
    if name != [] {
      DashCaseIdentity(name[1..]);
      assert [name[0]] + name[1..] == name;
    }
  }

  /** One capital between two lower-case parts becomes a dash and its lower-case form. */
  lemma DashCaseOneCapital(before: string, c: char, after: string)
    requires forall i :: 0 <= i < |before| ==> !IsUpper(before[i])
    requires forall i :: 0 <= i < |after| ==> !IsUpper(after[i])
    requires IsUpper(c)
    ensures DashCase(before + [c] + after) == before + ['-', ToLower(c)] + after
  {
    DashCaseAppend(before + [c], after);
    DashCaseAppend(before, [c]);
    DashCaseIdentity(before);
    DashCaseIdentity(after);
    assert DashCase([c]) == ['-', ToLower(c)] by {
      assert [c][1..] == [];
    }
  }

  /** A dash-case name without a dash is the name itself. */
  lemma {:induction false} DashCaseWithoutDash(name: string)
    requires '-' !in DashCase(name)
    ensures DashCase(name) == name
  {
    if name != [] {
      assert DashCase(name)[0] == (if IsUpper(name[0]) then '-' else name[0]);
      assert !IsUpper(name[0]);
      assert DashCase(name) == [name[0]] + DashCase(name[1..]);
      DashCaseWithoutDash(name[1..]);
      assert [name[0]] + name[1..] == name;
    }
  }

  /** Dash-casing introduces no space. */
  lemma {:induction false} DashCaseNoSpace(name: string)
    requires ' ' !in name
    ensures ' ' !in DashCase(name)
  {
    if name != [] {
      assert name == [name[0]] + name[1..];
      DashCaseNoSpace(name[1..]);
    }
  }

  /** The only option whose dash-case name is `compilers` is `compilers`. */
  lemma DashCaseCompilers(key: string)
    ensures DashCase(key) == "compilers" <==> key == "compilers"
  {
    if DashCase(key) == "compilers" {
      assert '-' !in "compilers";
      DashCaseWithoutDash(key);
    }
    if key == "compilers" {
      DashCaseIdentity(key);
    }
  }

  /** `CamelCase` recovers every name that has no dash from its dash-case form. */
  lemma {:induction false} CamelCaseRoundTrip(name: string)
    requires '-' !in name
    ensures CamelCase(DashCase(name)) == name
  {
    if name != [] {
      assert name == [name[0]] + name[1..];
      CamelCaseRoundTrip(name[1..]);
      var t := DashCase(name);
      if IsUpper(name[0]) {
        assert t[2..] == DashCase(name[1..]);
      } else {
        assert t[1..] == DashCase(name[1..]);
      }
      assert [name[0]] + name[1..] == name;
    }
  }

  /** Distinct option names without dashes give distinct flags. */
  lemma DashCaseInjective(a: string, b: string)
    requires '-' !in a && '-' !in b
    requires DashCase(a) == DashCase(b)
    ensures a == b
  {
    CamelCaseRoundTrip(a);
    CamelCaseRoundTrip(b);
  }
}
