/**
 * configs/config.go: StaticTokens.Decode, which parses the token table
 * `tok=s1,s2;tok2=s3` that the authenticator is built from.
 */
module Configs {
  import opened Wrappers
  import opened Strings

  /** Bearer token -> granted scopes, in configured order. */
  type TokenTable = map<string, seq<string>>

  /** The two errors Decode returns (`fmt.Errorf` values). */
  datatype ConfigError = InvalidStaticToken(entry: string) | DuplicateBearerToken(token: string)
  {
    function Message(): string
    {
      match this
      case InvalidStaticToken(entry) => "invalid static token : " + entry
      case DuplicateBearerToken(token) => "duplicate bearer token : " + token
    }
  }

  /** The ";"-separated entries of the configured value. */
  function Entries(value: string): seq<string>
  {
    Split(value, ';')
  }

  /** An entry is accepted when it splits on "=" into exactly two parts. */
  predicate WellFormed(entry: string)
  {
    |Split(entry, '=')| == 2
  }

  function TokenOf(entry: string): string
    requires WellFormed(entry)
  {
    Split(entry, '=')[0]
  }

  function ScopesOf(entry: string): seq<string>
    requires WellFormed(entry)
  {
    Split(Split(entry, '=')[1], ',')
  }

  /** Decodes `entries` in order on top of the table `acc`, stopping at the first bad entry. */
  function DecodeEntries(entries: seq<string>, acc: TokenTable): Result<TokenTable, ConfigError>
    decreases |entries|
  {
    if entries == [] then Ok(acc)
    else if !WellFormed(entries[0]) then Err(InvalidStaticToken(entries[0]))
    else if TokenOf(entries[0]) in acc then Err(DuplicateBearerToken(TokenOf(entries[0])))
    else DecodeEntries(entries[1..], acc[TokenOf(entries[0]) := ScopesOf(entries[0])])
  }

  /** What Decode produces for `value`. */
  function DecodeTable(value: string): Result<TokenTable, ConfigError>
  {
    DecodeEntries(Entries(value), map[])
  }

  /** Every entry is well formed and no token appears twice. */
  predicate ValidEntries(entries: seq<string>)
  {
    && (forall i :: 0 <= i < |entries| ==> WellFormed(entries[i]))
    && (forall i, j :: 0 <= i < j < |entries| ==> TokenOf(entries[i]) != TokenOf(entries[j]))
  }

  /** Decoding on top of `acc` succeeds exactly when the entries are valid and none reuses a token of `acc`. */
  lemma {:induction false} DecodeEntriesSucceeds(entries: seq<string>, acc: TokenTable)
    ensures DecodeEntries(entries, acc).Ok? <==>
      ValidEntries(entries) && forall i :: 0 <= i < |entries| ==> TokenOf(entries[i]) !in acc
    decreases |entries|
  {
    if entries != [] && WellFormed(entries[0]) && TokenOf(entries[0]) !in acc {
      var acc' := acc[TokenOf(entries[0]) := ScopesOf(entries[0])];
      DecodeEntriesSucceeds(entries[1..], acc');
      assert forall i :: 1 <= i < |entries| ==> entries[i] == entries[1..][i - 1];
    }
  }

  /** The keys of a successful decode: those of `acc` and one fresh token per entry. */
  lemma {:induction false} DecodeEntriesKeys(entries: seq<string>, acc: TokenTable)
    requires DecodeEntries(entries, acc).Ok?
    ensures var t := DecodeEntries(entries, acc).value;
      && (forall k :: k in t <==> k in acc || exists i :: 0 <= i < |entries| && WellFormed(entries[i]) && TokenOf(entries[i]) == k)
      && |t| == |acc| + |entries|
    decreases |entries|
  {
    if entries != [] {
      var acc' := acc[TokenOf(entries[0]) := ScopesOf(entries[0])];
      assert |acc'| == |acc| + 1;
      DecodeEntriesKeys(entries[1..], acc');
      var t := DecodeEntries(entries, acc).value;
      assert t == DecodeEntries(entries[1..], acc').value;
      forall k | k in t
        ensures k in acc || exists i :: 0 <= i < |entries| && WellFormed(entries[i]) && TokenOf(entries[i]) == k
      {
        if k !in acc' {
          var i :| 0 <= i < |entries[1..]| && WellFormed(entries[1..][i]) && TokenOf(entries[1..][i]) == k;
          assert entries[i + 1] == entries[1..][i];
        }
      }
      forall k | k in acc || exists i :: 0 <= i < |entries| && WellFormed(entries[i]) && TokenOf(entries[i]) == k
        ensures k in t
      {
        if k !in acc' {
          var i :| 0 <= i < |entries| && WellFormed(entries[i]) && TokenOf(entries[i]) == k;
          assert i != 0;
          assert entries[1..][i - 1] == entries[i];
        }
      }
    }
  }

  /** The values of a successful decode: `acc` is kept and each entry's token maps to its scopes. */
  lemma {:induction false} DecodeEntriesValues(entries: seq<string>, acc: TokenTable)
    requires DecodeEntries(entries, acc).Ok?
    ensures var t := DecodeEntries(entries, acc).value;
      && (forall k :: k in acc ==> k in t && t[k] == acc[k])
      && (forall i :: 0 <= i < |entries| ==> WellFormed(entries[i]) && TokenOf(entries[i]) in t && t[TokenOf(entries[i])] == ScopesOf(entries[i]))
    decreases |entries|
  {
    if entries != [] {
      var acc' := acc[TokenOf(entries[0]) := ScopesOf(entries[0])];
      DecodeEntriesValues(entries[1..], acc');
      var t := DecodeEntries(entries, acc).value;
      assert t == DecodeEntries(entries[1..], acc').value;
      forall i | 1 <= i < |entries|
        ensures WellFormed(entries[i]) && TokenOf(entries[i]) in t && t[TokenOf(entries[i])] == ScopesOf(entries[i])
      {
        assert entries[i] == entries[1..][i - 1];
      }
    }
  }

  /**
   * A successful decode keeps `acc`, adds one key per entry mapped to that
   * entry's scope list, and adds nothing else.
   */
  lemma DecodeEntriesContents(entries: seq<string>, acc: TokenTable)
    requires DecodeEntries(entries, acc).Ok?
    ensures var t := DecodeEntries(entries, acc).value;
      && (forall k :: k in t <==> k in acc || exists i :: 0 <= i < |entries| && WellFormed(entries[i]) && TokenOf(entries[i]) == k)
      && (forall k :: k in acc ==> t[k] == acc[k])
      && (forall i :: 0 <= i < |entries| ==> WellFormed(entries[i]) && t[TokenOf(entries[i])] == ScopesOf(entries[i]))
      && |t| == |acc| + |entries|
  {
    DecodeEntriesKeys(entries, acc);
    DecodeEntriesValues(entries, acc);
  }

  /** The first `n` entries are accepted on top of `acc`: well formed, with distinct tokens none of which is in `acc`. */
  predicate AcceptedBefore(entries: seq<string>, acc: TokenTable, n: nat)
    requires n <= |entries|
  {
    && (forall k :: 0 <= k < n ==> WellFormed(entries[k]) && TokenOf(entries[k]) !in acc)
    && (forall k, l :: 0 <= k < l < n ==> TokenOf(entries[k]) != TokenOf(entries[l]))
  }

  /** An accepted prefix of the tail, after an accepted first entry, is an accepted prefix one longer. */
  lemma AcceptedBeforeCons(entries: seq<string>, acc: TokenTable, n: nat)
    requires n < |entries| && WellFormed(entries[0]) && TokenOf(entries[0]) !in acc
    requires AcceptedBefore(entries[1..], acc[TokenOf(entries[0]) := ScopesOf(entries[0])], n)
    ensures AcceptedBefore(entries, acc, n + 1)
  {
    forall k | 1 <= k < n + 1
      ensures WellFormed(entries[k]) && TokenOf(entries[k]) !in acc && TokenOf(entries[k]) != TokenOf(entries[0])
    {
      assert entries[k] == entries[1..][k - 1];
    }
    forall k, l | 1 <= k < l < n + 1
      ensures TokenOf(entries[k]) != TokenOf(entries[l])
    {
      assert entries[k] == entries[1..][k - 1] && entries[l] == entries[1..][l - 1];
    }
  }

  /**
   * A failed decode names the first entry that goes wrong: every entry before
   * it was accepted, and it is either malformed or reuses a token of `acc` or
   * of an earlier entry.
   */
  lemma {:induction false} DecodeEntriesFails(entries: seq<string>, acc: TokenTable)
    requires DecodeEntries(entries, acc).Err?
    ensures match DecodeEntries(entries, acc).error
      case InvalidStaticToken(e) =>
        exists i :: 0 <= i < |entries| && entries[i] == e && !WellFormed(e) && AcceptedBefore(entries, acc, i)
      case DuplicateBearerToken(tok) =>
        exists j :: 0 <= j < |entries| && WellFormed(entries[j]) && TokenOf(entries[j]) == tok && AcceptedBefore(entries, acc, j) &&
          (tok in acc || exists i :: 0 <= i < j && WellFormed(entries[i]) && TokenOf(entries[i]) == tok)
    decreases |entries|
  {
    if !WellFormed(entries[0]) {
      assert AcceptedBefore(entries, acc, 0);
    } else if TokenOf(entries[0]) in acc {
      assert AcceptedBefore(entries, acc, 0);
    } else {
      var acc' := acc[TokenOf(entries[0]) := ScopesOf(entries[0])];
      var tail := entries[1..];
      DecodeEntriesFails(tail, acc');
      assert DecodeEntries(entries, acc) == DecodeEntries(tail, acc');
      match DecodeEntries(entries, acc).error
      case InvalidStaticToken(e) =>
        var i :| 0 <= i < |tail| && tail[i] == e && !WellFormed(e) && AcceptedBefore(tail, acc', i);
        AcceptedBeforeCons(entries, acc, i);
        assert entries[i + 1] == e;
      case DuplicateBearerToken(tok) =>
        var j :| 0 <= j < |tail| && WellFormed(tail[j]) && TokenOf(tail[j]) == tok && AcceptedBefore(tail, acc', j) &&
          (tok in acc' || exists i :: 0 <= i < j && WellFormed(tail[i]) && TokenOf(tail[i]) == tok);
        AcceptedBeforeCons(entries, acc, j);
        assert entries[j + 1] == tail[j];
        if tok !in acc && tok in acc' {
          assert TokenOf(entries[0]) == tok;
        } else if tok !in acc {
          var i :| 0 <= i < j && WellFormed(tail[i]) && TokenOf(tail[i]) == tok;
          assert entries[i + 1] == tail[i];
        }
    }
  }

  /**
   * Decode succeeds exactly when every ";"-entry splits on "=" into two parts
   * and no token repeats; then each token maps to its right-hand side split
   * on ",", and there are as many tokens as entries.
   */
  lemma DecodeTableCharacterization(value: string)
    ensures DecodeTable(value).Ok? <==> ValidEntries(Entries(value))
    ensures DecodeTable(value).Ok? ==>
      var t := DecodeTable(value).value;
      var entries := Entries(value);
      && (forall k :: k in t <==> exists i :: 0 <= i < |entries| && WellFormed(entries[i]) && TokenOf(entries[i]) == k)
      && (forall i :: 0 <= i < |entries| ==> t[TokenOf(entries[i])] == ScopesOf(entries[i]))
      && |t| == |entries|
  {
    DecodeEntriesSucceeds(Entries(value), map[]);
    if DecodeTable(value).Ok? {
      DecodeEntriesContents(Entries(value), map[]);
    }
  }

  /**
   * The error names the first entry Decode rejects: one that does not split
   * into two parts, or a token an earlier entry already has; every entry
   * before it was accepted.
   */
  lemma DecodeTableErrors(value: string)
    requires DecodeTable(value).Err?
    ensures var entries := Entries(value);
      match DecodeTable(value).error
      case InvalidStaticToken(e) =>
        exists i :: 0 <= i < |entries| && entries[i] == e && |Split(e, '=')| != 2 && AcceptedBefore(entries, map[], i)
      case DuplicateBearerToken(tok) =>
        exists i, j :: 0 <= i < j < |entries| && WellFormed(entries[i]) && WellFormed(entries[j]) &&
          TokenOf(entries[i]) == tok && TokenOf(entries[j]) == tok && AcceptedBefore(entries, map[], j)
  {
    DecodeEntriesFails(Entries(value), map[]);
  }

  /** Three separator-free pieces joined by `sep` split back into them. */
  lemma SplitThree(p: string, q: string, t: string, sep: char)
    requires sep !in p && sep !in q && sep !in t
    ensures Split(p + [sep] + q + [sep] + t, sep) == [p, q, t]
  {
    SplitWithoutSep(t, sep);
    SplitAfterPiece(q, sep, t);
    assert p + [sep] + q + [sep] + t == p + [sep] + (q + [sep] + t);
    SplitAfterPiece(p, sep, q + [sep] + t);
  }

  lemma ExampleEntries()
    ensures Entries("a=b;c;d=e=f") == ["a=b", "c", "d=e=f"]
  {
    var p, q, t := "a=b", "c", "d=e=f";
    assert ';' !in p && ';' !in q && ';' !in t;
    SplitThree(p, q, t, ';');
    assert p + [';'] + q + [';'] + t == "a=b;c;d=e=f";
  }

  lemma ExampleWellFormedness()
    ensures WellFormed("a=b") && TokenOf("a=b") == "a" && !WellFormed("c")
  {
    SplitWithoutSep("b", '=');
    SplitAfterPiece("a", '=', "b");
    assert "a=b" == "a" + ['='] + "b";
    SplitWithoutSep("c", '=');
  }

  /** Of two bad entries the first is reported: "a=b;c;d=e=f" fails on "c". */
  lemma FirstBadEntryReported()
    ensures DecodeTable("a=b;c;d=e=f") == Err(InvalidStaticToken("c"))
  {
    ExampleEntries();
    ExampleWellFormedness();
    var entries := ["a=b", "c", "d=e=f"];
    var acc := map["a" := ScopesOf("a=b")];
    assert DecodeTable("a=b;c;d=e=f") == DecodeEntries(entries, map[]);
    assert DecodeEntries(entries, map[]) == DecodeEntries(entries[1..], acc);
    assert entries[1..][0] == "c";
  }

  /** Every decoded scope list has at least one element (possibly ""). */
  lemma DecodedScopesNonEmpty(value: string)
    requires DecodeTable(value).Ok?
    ensures forall k :: k in DecodeTable(value).value ==> |DecodeTable(value).value[k]| >= 1
  {
    DecodeTableCharacterization(value);
  }

  /** The empty string has one entry, "", which has one part. */
  lemma EmptyValueRejected()
    ensures DecodeTable("") == Err(InvalidStaticToken(""))
  {
    assert Entries("") == [""];
    assert Split("", '=') == [""];
  }

  /** A trailing ";" leaves an empty last entry, which has one part. */
  lemma TrailingSemicolonRejected(value: string)
    ensures DecodeTable(value + ";").Err?
  {
    var entries := Entries(value + ";");
    SplitTrailingSep(value, ';');
    assert entries[|entries| - 1] == "";
    assert Split("", '=') == [""];
    DecodeEntriesSucceeds(entries, map[]);
  }

  /** No ";", "=" in a token; no ";", "=", "," in a scope. */
  predicate Encodable(pairs: seq<(string, seq<string>)>)
  {
    && |pairs| >= 1
    && (forall i :: 0 <= i < |pairs| ==> ';' !in pairs[i].0 && '=' !in pairs[i].0)
    && (forall i :: 0 <= i < |pairs| ==> |pairs[i].1| >= 1)
    && (forall i, k :: 0 <= i < |pairs| && 0 <= k < |pairs[i].1| ==>
          ';' !in pairs[i].1[k] && '=' !in pairs[i].1[k] && ',' !in pairs[i].1[k])
    && (forall i, j :: 0 <= i < j < |pairs| ==> pairs[i].0 != pairs[j].0)
  }

  function EncodeEntry(token: string, scopes: seq<string>): string
  {
    token + "=" + Join(scopes, ',')
  }

  /** The configuration text for a list of (token, scopes) pairs. */
  function EncodeTable(pairs: seq<(string, seq<string>)>): string
  {
    Join(seq(|pairs|, i requires 0 <= i < |pairs| => EncodeEntry(pairs[i].0, pairs[i].1)), ';')
  }

  lemma EncodedEntry(token: string, scopes: seq<string>)
    requires ';' !in token && '=' !in token && |scopes| >= 1
    requires forall k :: 0 <= k < |scopes| ==> ';' !in scopes[k] && '=' !in scopes[k] && ',' !in scopes[k]
    ensures ';' !in EncodeEntry(token, scopes)
    ensures WellFormed(EncodeEntry(token, scopes))
    ensures TokenOf(EncodeEntry(token, scopes)) == token && ScopesOf(EncodeEntry(token, scopes)) == scopes
  {
    var joined := Join(scopes, ',');
    JoinAvoids(scopes, ',', ';');
    JoinAvoids(scopes, ',', '=');
    var e := EncodeEntry(token, scopes);
    assert Join([token, joined], '=') == e;
    SplitJoin([token, joined], '=');
    SplitJoin(scopes, ',');
  }

  /**
   * Round trip: a table written out as `tok=s1,s2;tok2=s3` from distinct
   * tokens decodes back to exactly those tokens and scope lists.
   */
  lemma DecodeEncode(pairs: seq<(string, seq<string>)>)
    requires Encodable(pairs)
    ensures DecodeTable(EncodeTable(pairs)).Ok?
    ensures var t := DecodeTable(EncodeTable(pairs)).value;
      && (forall k :: k in t <==> exists i :: 0 <= i < |pairs| && pairs[i].0 == k)
      && (forall i :: 0 <= i < |pairs| ==> t[pairs[i].0] == pairs[i].1)
  {
    var entries := seq(|pairs|, i requires 0 <= i < |pairs| => EncodeEntry(pairs[i].0, pairs[i].1));
    forall i | 0 <= i < |pairs|
      ensures ';' !in entries[i] && WellFormed(entries[i])
      ensures TokenOf(entries[i]) == pairs[i].0 && ScopesOf(entries[i]) == pairs[i].1
    {
      EncodedEntry(pairs[i].0, pairs[i].1);
    }
    SplitJoin(entries, ';');
    assert Entries(EncodeTable(pairs)) == entries;
    DecodeTableCharacterization(EncodeTable(pairs));
  }

  /** The configuration value *st points to; Decode replaces it only on success. */
  class StaticTokens {
    var tokens: TokenTable

    constructor ()
      ensures tokens == map[]
    {
      tokens := map[];
    }

    method Decode(value: string) returns (err: Option<ConfigError>)
      modifies this
      ensures DecodeTable(value).Ok? ==> err == None && tokens == DecodeTable(value).value
      ensures DecodeTable(value).Err? ==> err == Some(DecodeTable(value).error) && tokens == old(tokens)
    {
      var staticTokens: TokenTable := map[];
      var entries := Split(value, ';');
      var i := 0;
      while i < |entries|
        invariant 0 <= i <= |entries|
        invariant DecodeEntries(entries[i..], staticTokens) == DecodeTable(value)
      {
        var tokenAndScopes := Split(entries[i], '=');
        if |tokenAndScopes| != 2 {
          return Some(InvalidStaticToken(entries[i]));
        }
        if tokenAndScopes[0] in staticTokens {
          return Some(DuplicateBearerToken(tokenAndScopes[0]));
        }
        staticTokens := staticTokens[tokenAndScopes[0] := Split(tokenAndScopes[1], ',')];
        assert entries[i..][1..] == entries[i + 1..];
        i := i + 1;
      }
      tokens := staticTokens;
      return None;
    }
  }
}
