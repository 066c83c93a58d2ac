/** The hex text input of the colour picker: which typed values reach the
    form's `onChange`, in what form, and which value the picker displays. */
module ColorPicker {
  import opened Wrappers

  predicate IsHexDigit(c: char) {
    ('0' <= c <= '9') || ('a' <= c <= 'f') || ('A' <= c <= 'F')
  }

  /** `s` is exactly `n` groups of three hex digits, the group `([0-9A-Fa-f]{3})`
      repeated `n` times. */
  predicate HexGroups(s: string, n: nat)
    decreases n
  {
    if n == 0 then s == ""
    else |s| >= 3 && IsHexDigit(s[0]) && IsHexDigit(s[1]) && IsHexDigit(s[2]) && HexGroups(s[3..], n - 1)
  }

  /** The regular expression `^#?([0-9A-Fa-f]{3}){1,2}$` read structurally:
      an optional `#`, then one or two groups, then the end of the input.
      When `#?` skips a leading `#`, the groups cannot start with it, so the
      two readings of `#?` are the two disjuncts. */
  predicate MatchesHexPattern(s: string) {
    var groups := (t: string) => HexGroups(t, 1) || HexGroups(t, 2);
    (s != [] && s[0] == '#' && groups(s[1..])) || groups(s)
  }

  /** The digits after an optional leading `#`. */
  function Digits(s: string): string {
    if s != [] && s[0] == '#' then s[1..] else s
  }

  predicate AllHex(s: string) {
    forall i :: 0 <= i < |s| ==> IsHexDigit(s[i])
  }

  lemma {:induction false} HexGroupsIff(s: string, n: nat)
    ensures HexGroups(s, n) <==> |s| == 3 * n && AllHex(s)
    decreases n
  {
    if n > 0 {
      if |s| >= 3 {
        HexGroupsIff(s[3..], n - 1);
        if |s| == 3 * n && AllHex(s) {
          assert AllHex(s[3..]) by {
            forall i | 0 <= i < |s[3..]| ensures IsHexDigit(s[3..][i]) {
              assert s[3..][i] == s[i + 3];
            }
          }
        }
        if HexGroups(s, n) {
          forall i | 0 <= i < |s| ensures IsHexDigit(s[i]) {
            if i >= 3 {
              assert s[i] == s[3..][i - 3];
            }
          }
        }
      }
    }
  }

  /** The pattern accepts exactly an optional `#` followed by three or six
      hex digits of either case. */
  lemma HexPatternIff(s: string)
    ensures MatchesHexPattern(s) <==> (|Digits(s)| == 3 || |Digits(s)| == 6) && AllHex(Digits(s))
  {
    HexGroupsIff(s, 1);
    HexGroupsIff(s, 2);
    if s != [] {
      HexGroupsIff(s[1..], 1);
      HexGroupsIff(s[1..], 2);
      if s[0] == '#' {
        assert !IsHexDigit(s[0]);
      }
    }
  }

  /** The input's `onChange`: a value the pattern rejects is dropped; an
      accepted one is passed on with a leading `#`, added when missing. */
  function OnHexInput(input: string): (emitted: Option<string>)
    ensures emitted.None? <==> !MatchesHexPattern(input)
    ensures emitted.Some? ==>
      && (|emitted.value| == 4 || |emitted.value| == 7)
      && emitted.value[0] == '#'
      && AllHex(emitted.value[1..])
      && emitted.value[1..] == Digits(input)
    ensures emitted.Some? && input != [] && input[0] == '#' ==> emitted.value == input
    ensures emitted.Some? && (input == [] || input[0] != '#') ==> emitted.value == "#" + input
  {
    HexPatternIff(input);
    if MatchesHexPattern(input) then
      Some(if input != [] && input[0] == '#' then input else "#" + input)
    else None
  }

  /** An emitted value, typed again, is accepted and emitted unchanged. */
  lemma OnHexInputFixpoint(input: string)
    requires OnHexInput(input).Some?
    ensures OnHexInput(OnHexInput(input).value) == OnHexInput(input)
  {
    var v := OnHexInput(input).value;
    HexPatternIff(v);
  }

  /** `parsedValue`: the controlled value when it is non-empty, otherwise the
      CSS form of the last used colour; `colorToCss` is not modelled. */
  function ParsedValue<Color>(value: string, lastUsedColor: Color, colorToCss: Color -> string): (shown: string)
    ensures value != "" ==> shown == value
    ensures value == "" ==> shown == colorToCss(lastUsedColor)
  {
    if value != "" then value else colorToCss(lastUsedColor)
  }
}
