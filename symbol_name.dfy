/** The symbol names the `Component` derive generates: `get_symbol_name_c` is the Rust type
    name with every `::` replaced by `.`, followed by a NUL; `get_symbol_name` is the same
    string without its NUL. The type name itself (`std::any::type_name`) is an input. */
module SymbolNames {

  /** `str::replace("::", ".")`: a left-to-right scan replacing non-overlapping `::`.
      Each `::` shrinks to one character, so the name never grows, and only the empty
      name becomes empty. */
  function ReplacePathSeparators(s: string): (r: string)
    ensures |r| <= |s|
    ensures |r| == 0 <==> |s| == 0
    decreases |s|
  {
    if |s| == 0 then ""
    else if |s| >= 2 && s[0] == ':' && s[1] == ':' then "." + ReplacePathSeparators(s[2..])
    else [s[0]] + ReplacePathSeparators(s[1..])
  }

  /** `s` contains `::` somewhere. */
  predicate HasPathSeparator(s: string) {
    exists i :: 0 <= i < |s| - 1 && s[i] == ':' && s[i + 1] == ':'
  }

  /** The inverse direction: every `.` back to `::`. */
  function RestorePathSeparators(s: string): string
    decreases |s|
  {
    if |s| == 0 then "" else (if s[0] == '.' then "::" else [s[0]]) + RestorePathSeparators(s[1..])
  }

  /** The first character of the result: `.` for a leading `::`, the input's first otherwise. */
  lemma {:induction false} ReplaceHead(s: string)
    requires |s| > 0
    ensures |ReplacePathSeparators(s)| > 0
    ensures ReplacePathSeparators(s)[0]
         == if |s| >= 2 && s[0] == ':' && s[1] == ':' then '.' else s[0]
  {
  }

  /** No `::` survives the replacement (a `:::` becomes `.:`). */
  lemma {:induction false} ReplaceRemovesSeparators(s: string)
    ensures !HasPathSeparator(ReplacePathSeparators(s))
    decreases |s|
  {
    if |s| == 0 {
    } else if |s| >= 2 && s[0] == ':' && s[1] == ':' {
      var rest := ReplacePathSeparators(s[2..]);
      ReplaceRemovesSeparators(s[2..]);
      assert ReplacePathSeparators(s) == "." + rest;
      forall i | 0 <= i < |rest|
        ensures !(("." + rest)[i] == ':' && ("." + rest)[i + 1] == ':')
      {
        if i > 0 {
          assert ("." + rest)[i] == rest[i - 1] && ("." + rest)[i + 1] == rest[i];
        }
      }
    } else {
      var rest := ReplacePathSeparators(s[1..]);
      ReplaceRemovesSeparators(s[1..]);
      assert ReplacePathSeparators(s) == [s[0]] + rest;
      if s[0] == ':' && |s| >= 2 {
        ReplaceHead(s[1..]);
        assert rest[0] == s[1];
      }
      forall i | 0 <= i < |rest|
        ensures !(([s[0]] + rest)[i] == ':' && ([s[0]] + rest)[i + 1] == ':')
      {
        if i > 0 {
          assert ([s[0]] + rest)[i] == rest[i - 1] && ([s[0]] + rest)[i + 1] == rest[i];
        }
      }
    }
  }

  /** Every character of the result is a `.` or a character of the input. */
  lemma {:induction false} ReplaceChars(s: string, c: char)
    requires c in ReplacePathSeparators(s)
    ensures c == '.' || c in s
    decreases |s|
  {
    if |s| == 0 {
    } else if |s| >= 2 && s[0] == ':' && s[1] == ':' {
      if c != '.' {
        ReplaceChars(s[2..], c);
      }
    } else if c != s[0] {
      ReplaceChars(s[1..], c);
    }
  }

  /** For a type name without `.` (Rust paths have none) the replacement loses nothing:
      restoring the separators gives the type name back. */
  lemma {:induction false} ReplaceRoundTrip(s: string)
    requires '.' !in s
    ensures RestorePathSeparators(ReplacePathSeparators(s)) == s
    decreases |s|
  {
    if |s| == 0 {
    } else if |s| >= 2 && s[0] == ':' && s[1] == ':' {
      ReplaceRoundTrip(s[2..]);
      var rest := ReplacePathSeparators(s[2..]);
      assert ("." + rest)[1..] == rest;
      assert s == "::" + s[2..];
    } else {
      ReplaceRoundTrip(s[1..]);
      var rest := ReplacePathSeparators(s[1..]);
      assert ([s[0]] + rest)[1..] == rest;
      assert s[0] != '.';
      assert s == [s[0]] + s[1..];
    }
  }

  /** `get_symbol_name_c`: the replaced name plus a NUL terminator. */
  function SymbolNameC(typeName: string): (r: string)
    ensures |r| >= 1 && r[|r| - 1] == '\0'
    ensures !HasPathSeparator(r[..|r| - 1])
  {
    ReplaceRemovesSeparators(typeName);
    var name := ReplacePathSeparators(typeName);
    assert (name + "\0")[..|name|] == name;
    name + "\0"
  }

  /** `get_symbol_name`: `get_symbol_name_c` without its last character (the NUL). */
  function SymbolName(typeName: string): (r: string)
    ensures |r| == |SymbolNameC(typeName)| - 1
    ensures SymbolNameC(typeName) == r + "\0"
    ensures r == ReplacePathSeparators(typeName)
  {
    var name := SymbolNameC(typeName);
    name[..|name| - 1]
  }

  /** For a type name without NUL, the C name is a well-formed C string: its only NUL is
      the terminator, so C code reading it sees exactly `SymbolName`. */
  lemma SymbolNameCIsCString(typeName: string, i: nat)
    requires '\0' !in typeName && i < |SymbolNameC(typeName)| - 1
    ensures SymbolNameC(typeName)[i] != '\0'
  {
    var name := ReplacePathSeparators(typeName);
    assert SymbolNameC(typeName)[i] == name[i];
    if name[i] == '\0' {
      ReplaceChars(typeName, '\0');
    }
  }
}
