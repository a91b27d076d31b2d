/** What one entry of a cookie header says: its name and value between any white space, and which entries say
    nothing. */
module CookieEntries {
  import opened Common
  import opened CookieHeader
  import Text
  import UriComponent

  predicate Spaces(s: string) {
    forall c :: c in s ==> Text.IsSpace(c)
  }

  lemma {:induction false} TrimLeftDrops(a: string, s: string)
    requires Spaces(a)
    ensures Text.TrimLeft(a + s) == Text.TrimLeft(s)
  {
    if a == "" {
      assert a + s == s;
    } else {
      assert (a + s)[1..] == a[1..] + s;
      TrimLeftDrops(a[1..], s);
    }
  }

  lemma {:induction false} TrimRightDrops(s: string, b: string)
    requires Spaces(b)
    ensures Text.TrimRight(s + b) == Text.TrimRight(s)
  {
    if b == "" {
      assert s + b == s;
    } else {
      assert (s + b)[..|s + b| - 1] == s + b[..|b| - 1];
      TrimRightDrops(s, b[..|b| - 1]);
    }
  }

  /** Trimming a text that has no space at its ends, padded with spaces, gives the text back. */
  lemma TrimPadded(a: string, s: string, b: string)
    requires Spaces(a) && Spaces(b) && Text.Trimmed(s)
    ensures Text.Trim(a + s + b) == s
  {
    assert a + s + b == a + (s + b);
    TrimLeftDrops(a, s + b);
    if s == "" {
      assert s + b == b && b + "" == b;
      TrimLeftDrops(b, "");
    } else {
      TrimRightDrops(s, b);
    }
  }

  lemma EntryReads(part: string, left: string, right: string)
    requires Text.Trim(part) == left + "=" + right && left != "" && '=' !in left
    ensures Read(part) == Pair(Text.Trim(left), UriComponent.Decode(Text.Trim(right)))
  {
    var entry := left + "=" + right;
    FirstEquals(left, right);
    assert entry[..|left|] == left && entry[|left| + 1..] == right;
  }

  lemma EmptyValueTrims(a: string, left: string, c: string, d: string)
    requires Spaces(a) && Spaces(c) && Spaces(d) && left != "" && !Text.IsSpace(left[0])
    ensures Text.Trim(a + left + "=" + c + "" + d) == left + "=" + ""
  {
    var entry := left + "=";
    assert a + left + "=" + c + "" + d == a + entry + (c + d) && left + "=" + "" == entry;
    TrimPadded(a, entry, c + d);
  }

  lemma ValueTrims(a: string, left: string, c: string, value: string, d: string)
    requires Spaces(a) && Spaces(d) && left != "" && !Text.IsSpace(left[0])
    requires value != "" && Text.Trimmed(value)
    ensures Text.Trim(a + left + "=" + c + value + d) == left + "=" + (c + value)
  {
    var entry := left + "=" + (c + value);
    assert a + left + "=" + c + value + d == a + entry + d;
    assert entry[0] == left[0] && entry[|entry| - 1] == value[|value| - 1];
    TrimPadded(a, entry, d);
  }

  /** An entry is read as its name with its decoded value, wherever white space stands around the two. */
  lemma PaddedEntryReads(a: string, name: string, b: string, c: string, value: string, d: string)
    requires Spaces(a) && Spaces(b) && Spaces(c) && Spaces(d)
    requires name != "" && '=' !in name && Text.Trimmed(name) && Text.Trimmed(value)
    ensures Read(a + (name + b) + "=" + c + value + d) == Pair(name, UriComponent.Decode(value))
  {
    var part, left := a + (name + b) + "=" + c + value + d, name + b;
    EqualsIsNoSpace(b);
    assert left[0] == name[0];
    PaddedName(name, b);
    if value == "" {
      EmptyValueTrims(a, left, c, d);
      EntryReads(part, left, "");
    } else {
      ValueTrims(a, left, c, value, d);
      EntryReads(part, left, c + value);
      PaddedValue(c, value);
    }
  }

  lemma EqualsIsNoSpace(b: string)
    requires Spaces(b)
    ensures '=' !in b
  {
    assert !Text.IsSpace('=');
  }

  lemma PaddedName(name: string, b: string)
    requires Spaces(b) && Text.Trimmed(name)
    ensures Text.Trim(name + b) == name
  {
    TrimPadded("", name, b);
    assert "" + name + b == name + b;
  }

  lemma PaddedValue(c: string, value: string)
    requires Spaces(c) && Text.Trimmed(value)
    ensures Text.Trim(c + value) == value
  {
    TrimPadded(c, value, "");
    assert c + value + "" == c + value;
  }

  /** Nothing but spaces before the first equals sign. */
  predicate Nameless(part: string) {
    '=' !in part || exists k :: 0 <= k < |part| && part[k] == '=' && Spaces(part[..k])
  }

  /** An entry says nothing just when it has no equals sign, or only spaces before it. */
  lemma SkippedExactly(part: string)
    ensures Read(part) == Skipped <==> Nameless(part)
  {
    var i, j := Text.TrimIsSlice(part);
    var entry := Text.Trim(part);
    assert entry == part[i..j];
    assert part == part[..i] + entry + part[j..];
    assert !Text.IsSpace('=');
    if k :| 0 <= k < |part| && part[k] == '=' && Spaces(part[..k]) {
      NamelessEntry(part, i, j, k);
    } else if '=' in part {
      NamedEntry(part, i, j);
    }
  }

  lemma NamelessEntry(part: string, i: nat, j: nat, k: nat)
    requires i <= j <= |part| && Text.Trim(part) == part[i..j] && Text.Trimmed(part[i..j])
    requires Spaces(part[..i]) && Spaces(part[j..]) && k < |part| && part[k] == '=' && Spaces(part[..k])
    ensures Read(part) == Skipped
  {
    assert !Text.IsSpace('=');
    assert forall x :: 0 <= x < i ==> part[x] == part[..i][x];
    assert forall x :: j <= x < |part| ==> part[x] == part[j..][x - j];
    assert forall x :: 0 <= x < k ==> part[x] == part[..k][x];
    assert i <= k < j && part[i..j][0] == part[i];
    assert k == i && part[i..j][0] == '=';
  }

  lemma NamedEntry(part: string, i: nat, j: nat)
    requires i <= j <= |part| && Text.Trim(part) == part[i..j] && Spaces(part[..i]) && Spaces(part[j..])
    requires !Nameless(part)
    ensures Read(part).Pair?
  {
    assert !Text.IsSpace('=');
    assert part == part[..i] + part[i..j] + part[j..];
    assert '=' in part[i..j];
    assert part[i] == part[i..j][0] && Spaces(part[..i]);
  }
}
