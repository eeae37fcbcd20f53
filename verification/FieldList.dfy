/** The newline-separated lists that carry disk specs into the guest
    (lib/libktest.sh qemu_disk, tests/prelude.sh scratch_dev_plug): strings, since
    arrays cannot cross the environment. */
module FieldList {
  import opened Text

  const NL: char := '\n'

  /** `list+="${list:+$'\n'}$field"`. */
  function Append(list: string, field: string): string {
    if list == "" then field else list + ([NL] + field)
  }

  function Listed(fields: seq<string>): string {
    if fields == [] then "" else Append(Listed(fields[..|fields| - 1]), fields[|fields| - 1])
  }

  /** `mapfile -t fields <<< "$list"`. */
  function Fields(list: string): seq<string> {
    Split(list, NL)
  }

  lemma {:induction false} JoinLast(parts: seq<string>, last: string, sep: char)
    requires parts != []
    ensures Join(parts + [last], sep) == Join(parts, sep) + ([sep] + last)
  {
    var longer := parts + [last];
    assert longer[1..] == parts[1..] + [last];
    if |parts| == 1 {
      assert parts[1..] == [] && longer[1..] == [last];
      assert Join([last], sep) == last;
      assert parts[0] + [sep] + last == parts[0] + ([sep] + last);
    } else {
      JoinLast(parts[1..], last, sep);
      assert parts[0] + [sep] + (Join(parts[1..], sep) + ([sep] + last))
          == parts[0] + [sep] + Join(parts[1..], sep) + ([sep] + last);
    }
  }

  lemma {:induction false} ListedIsJoin(fields: seq<string>)
    requires fields != [] && (|fields| == 1 || fields[0] != "")
    ensures Listed(fields) == Join(fields, NL)
    ensures fields[0] != "" ==> Listed(fields) != ""
  {
    var init, last := fields[..|fields| - 1], fields[|fields| - 1];
    if init == [] {
      assert Listed(init) == "";
    } else {
      ListedIsJoin(init);
      JoinLast(init, last, NL);
      assert fields == init + [last];
    }
  }

  /** An empty first field leaves no trace once another follows. */
  lemma {:induction false} EmptyFirstLost(fields: seq<string>)
    requires |fields| >= 2 && fields[0] == ""
    ensures Listed(fields) == Listed(fields[1..])
  {
    var init, last := fields[..|fields| - 1], fields[|fields| - 1];
    var tail := fields[1..];
    assert tail[..|tail| - 1] == init[1..] && tail[|tail| - 1] == last;
    if |init| == 1 {
      assert init[..0] == [] && Listed([]) == "" && Listed(init) == "" && init[1..] == [];
    } else {
      EmptyFirstLost(init);
    }
  }

  lemma {:induction false} SplitPieces(s: string, sep: char)
    ensures forall i | 0 <= i < |Split(s, sep)| :: sep !in Split(s, sep)[i]
  {
    if s != [] {
      SplitPieces(s[1..], sep);
    }
  }

  lemma {:induction false} NoMoreFields(fields: seq<string>)
    requires fields != [] && forall i | 0 <= i < |fields| :: NL !in fields[i]
    ensures |Fields(Listed(fields))| <= |fields|
  {
    if |fields| == 1 || fields[0] != "" {
      ListedIsJoin(fields);
      SplitJoin(fields, NL);
    } else {
      EmptyFirstLost(fields);
      NoMoreFields(fields[1..]);
    }
  }

  /** Field N of the list is the N-th appended exactly when no field holds a newline
      and the first is not empty (or the only one). Later fields may be empty. */
  lemma FieldsAlignIff(fields: seq<string>)
    requires fields != []
    ensures Fields(Listed(fields)) == fields <==>
            (forall i | 0 <= i < |fields| :: NL !in fields[i]) && (|fields| == 1 || fields[0] != "")
  {
    if Fields(Listed(fields)) == fields {
      SplitPieces(Listed(fields), NL);
      if |fields| > 1 && fields[0] == "" {
        EmptyFirstLost(fields);
        NoMoreFields(fields[1..]);
        assert false;
      }
    } else if (forall i | 0 <= i < |fields| :: NL !in fields[i]) && (|fields| == 1 || fields[0] != "") {
      ListedIsJoin(fields);
      SplitJoin(fields, NL);
      assert false;
    }
  }
}
