/** The display name of a group chat, built from its participants' names
    (the part of `load_handles_and_chats` that de-duplicates the names and
    formats them; the database queries around it are not modelled). */
module GroupNames {
  import opened Seqs
  import opened Text

  /** `unique` holds each name of `names` once, in the order of first appearance. */
  ghost predicate IsDedupOf(names: seq<string>, unique: seq<string>) {
    && NoDuplicates(unique)
    && (forall n :: n in unique <==> n in names)
    && (forall i, j :: 0 <= i < j < |unique| ==> FirstPos(names, unique[i]) < FirstPos(names, unique[j]))
  }

  /** The order-preserving de-duplication loop over the participants' names,
      with its `seen` set. */
  method DedupNames(names: seq<string>) returns (unique: seq<string>)
    ensures IsDedupOf(names, unique)
  {
    var seen: set<string> := {};
    unique := [];
    for i := 0 to |names|
      invariant forall n :: n in seen <==> n in unique
      invariant forall n :: n in unique <==> n in names[..i]
      invariant NoDuplicates(unique)
      invariant forall a :: 0 <= a < |unique| ==> unique[a] in names && FirstPos(names, unique[a]) < i
      invariant forall a, b :: 0 <= a < b < |unique| ==> FirstPos(names, unique[a]) < FirstPos(names, unique[b])
    {
      assert names[..i + 1] == names[..i] + [names[i]];
      if names[i] !in seen {
        FirstPosUnique(names, names[i], i);
        seen := seen + {names[i]};
        unique := unique + [names[i]];
      }
    }
    assert names[..|names|] == names;
  }

  /** The group chat's display name: "Group chat #<rowid>" without names, the
      name itself for one, "A, B" for two, and "A, B + <k> others" for more,
      where k is the number of names beyond the first two. */
  function GroupChatName(rowid: int, unique: seq<string>): (name: string)
    ensures unique == [] ==> name == "Group chat #" + IntToDecimal(rowid)
    ensures |unique| == 1 ==> name == unique[0]
    ensures |unique| == 2 ==> name == unique[0] + ", " + unique[1]
    ensures |unique| > 2 ==> name == unique[0] + ", " + unique[1] + " + " + NatToDecimal(|unique| - 2) + " others"
  {
    if unique == [] then "Group chat #" + IntToDecimal(rowid)
    else if |unique| == 1 then unique[0]
    else if |unique| == 2 then unique[0] + ", " + unique[1]
    else unique[0] + ", " + unique[1] + " + " + NatToDecimal(|unique| - 2) + " others"
  }

  /** The numbers in a formatted name read back: after "Group chat #" stands
      the row id, with a minus sign exactly when it is negative, and between
      "A, B + " and " others" stands the number of names beyond the first two. */
  lemma GroupChatNameReadsBack(rowid: int, unique: seq<string>)
    ensures var name := GroupChatName(rowid, unique);
      unique == [] ==>
        && |name| > 12 && name[..12] == "Group chat #"
        && (rowid >= 0 ==> AllDigits(name[12..]) && ParseDecimal(name[12..]) == rowid)
        && (rowid < 0 ==> name[12] == '-' && AllDigits(name[13..]) && ParseDecimal(name[13..]) == -rowid)
    ensures var name, k := GroupChatName(rowid, unique), if |unique| > 2 then |unique[0]| + |unique[1]| + 5 else 0;
      |unique| > 2 ==>
        && k < |name| - 7
        && name[..k] == unique[0] + ", " + unique[1] + " + "
        && name[|name| - 7..] == " others"
        && AllDigits(name[k..|name| - 7]) && ParseDecimal(name[k..|name| - 7]) == |unique| - 2
  {
    var name := GroupChatName(rowid, unique);
    if unique == [] {
      var d := IntToDecimal(rowid);
      assert name == "Group chat #" + d;
      assert name[12..] == d;
      if rowid < 0 {
        assert name[13..] == d[1..];
      }
    } else if |unique| > 2 {
      var prefix := unique[0] + ", " + unique[1] + " + ";
      var d := NatToDecimal(|unique| - 2);
      assert name == prefix + d + " others";
      assert name[..|prefix|] == prefix;
      assert name[|prefix|..|name| - 7] == d;
    }
  }

  /** The name of a group chat: its own display name when that is not blank
      (a missing display name is the empty string), otherwise the name built
      from the de-duplicated participant names. */
  method NameGroupChat(rowid: int, displayName: string, participants: seq<string>) returns (name: string)
    ensures Strip(displayName) != [] ==> name == displayName
    ensures Strip(displayName) == [] ==>
      exists unique :: IsDedupOf(participants, unique) && name == GroupChatName(rowid, unique)
  {
    if displayName != [] && Strip(displayName) != [] {
      name := displayName;
    } else {
      var unique := DedupNames(participants);
      name := GroupChatName(rowid, unique);
    }
  }
}
