/** Decoding of JSON Pointer reference tokens
    (parsePatchPathEscaped, internal/pkg/api/rest-handler.go). */
module JsonPointer {

  /** strings.Replace(s, search, replacement, -1) for a non-empty search string. */
  function ReplaceAll(s: string, search: string, replacement: string): string
    requires search != ""
    decreases |s|
  {
    if s == "" then ""
    else if search <= s then replacement + ReplaceAll(s[|search|..], search, replacement)
    else [s[0]] + ReplaceAll(s[1..], search, replacement)
  }

  function TwoPass(s: string): string {
    ReplaceAll(ReplaceAll(s, "~1", "/"), "~0", "~")
  }

  /** Overwrites every segment twice, first for `~1`, then for `~0`. */
  method DecodeSegments(path: array<string>)
    modifies path
    ensures forall i :: 0 <= i < path.Length ==> path[i] == Decode(old(path[i]))
  {
    for i := 0 to path.Length
      invariant forall j :: 0 <= j < i ==> path[j] == Decode(old(path[j]))
      invariant forall j :: i <= j < path.Length ==> path[j] == old(path[j])
    {
      path[i] := ReplaceAll(path[i], "~1", "/");
      path[i] := ReplaceAll(path[i], "~0", "~");
      TwoPassIsDecode(old(path[i]));
    }
  }

  /** Section 4 of RFC 6901 as one left-to-right decode. */
  function Decode(s: string): string {
    if s == "" then ""
    else if |s| > 1 && s[0] == '~' && s[1] == '1' then "/" + Decode(s[2..])
    else if |s| > 1 && s[0] == '~' && s[1] == '0' then "~" + Decode(s[2..])
    else [s[0]] + Decode(s[1..])
  }

  /** Section 3 of RFC 6901: '~' is written "~0" and '/' is written "~1". */
  function Escape(s: string): string {
    if s == "" then ""
    else (if s[0] == '~' then "~0" else if s[0] == '/' then "~1" else [s[0]]) + Escape(s[1..])
  }

  /** An escaped reference token: no '/', and every '~' starts "~0" or "~1". */
  predicate IsEscaped(s: string) {
    if s == "" then true
    else if s[0] == '~' then |s| > 1 && (s[1] == '0' || s[1] == '1') && IsEscaped(s[2..])
    else s[0] != '/' && IsEscaped(s[1..])
  }

  /** The two replacements, in the order the RFC prescribes, are a single decode of
      every string, escaped or not. */
  lemma {:induction false} TwoPassIsDecode(s: string)
    ensures TwoPass(s) == Decode(s)
    decreases |s|
  {
    if s == "" {
    } else if "~1" <= s {
      TwoPassIsDecode(s[2..]);
      var rest := ReplaceAll(s[2..], "~1", "/");
      assert ("/" + rest)[1..] == rest && !("~0" <= "/" + rest) by {
        assert ("/" + rest)[0] != "~0"[0];
      }
    } else {
      var once := [s[0]] + ReplaceAll(s[1..], "~1", "/");
      if "~0" <= s {
        assert s[1..][0] == '0' && s[1..][1..] == s[2..];
        assert once == "~0" + ReplaceAll(s[2..], "~1", "/");
        assert once[2..] == ReplaceAll(s[2..], "~1", "/");
        TwoPassIsDecode(s[2..]);
      } else {
        TwoPassIsDecode(s[1..]);
        assert once[1..] == ReplaceAll(s[1..], "~1", "/");
        assert !("~0" <= once) by {
          if s[0] == '~' && |s| > 1 {
            assert s[1] != '0' && s[1] != '1';
            assert "~1" <= s[1..] ==> s[1..][0] == '~';
          }
        }
      }
    }
  }

  lemma {:induction false} DecodeEscape(s: string)
    ensures Decode(Escape(s)) == s && IsEscaped(Escape(s))
  {
    if s != "" {
      DecodeEscape(s[1..]);
      var head := if s[0] == '~' then "~0" else if s[0] == '/' then "~1" else [s[0]];
      assert Escape(s)[|head|..] == Escape(s[1..]);
      assert s == [s[0]] + s[1..];
    }
  }

  /** What the handler computes inverts the escaping of every token, and escaping inverts
      it exactly on the strings that are escaped tokens. */
  lemma DecodingInvertsEscaping(token: string, s: string)
    ensures TwoPass(Escape(token)) == token
    ensures Escape(TwoPass(s)) == s <==> IsEscaped(s)
  {
    TwoPassIsDecode(Escape(token));
    DecodeEscape(token);
    TwoPassIsDecode(s);
    if IsEscaped(s) {
      EscapeDecode(s);
    } else {
      DecodeEscape(Decode(s));
    }
  }

  lemma {:induction false} EscapeDecode(s: string)
    requires IsEscaped(s)
    ensures Escape(Decode(s)) == s
    decreases |s|
  {
    if s == "" {
    } else if s[0] == '~' {
      EscapeDecode(s[2..]);
      assert Decode(s)[1..] == Decode(s[2..]);
      assert s == s[..2] + s[2..];
    } else {
      EscapeDecode(s[1..]);
      assert Decode(s)[1..] == Decode(s[1..]);
      assert s == [s[0]] + s[1..];
    }
  }
}
