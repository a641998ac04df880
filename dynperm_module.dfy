/** The string rules of the `dynperm` commands
    (Bot.Core/DynPerm/DynamicPermissionModule.cs): the pastebin raw-URL rewrite
    of `set`, the argument check run at install time, the confirmation of
    `clear` and when `show` pastes the permissions again.

    The permission service and the pastebin client are not part of this model:
    the stored data of a server is a record here and a new paste's URL is a
    parameter. */
module DynPerm {
  import opened Wrappers
  import opened Text

  const PastebinIdentifier: string := "http://pastebin.com/"
  const RawPath: string := "raw/"

  /** The text `set` parses: a pastebin page link is rewritten to the link of its
      raw text, which is downloaded; anything else is the permissions text. */
  datatype SetInput = Download(url: string) | Inline(text: string)

  function SetSource(input: string): (r: SetInput)
    ensures r.Download? <==> StartsWith(input, PastebinIdentifier)
    ensures r.Inline? ==> r.text == input
    ensures r.Download? ==>
              StartsWith(r.url, PastebinIdentifier + RawPath) &&
              r.url[|PastebinIdentifier + RawPath|..] == input[|PastebinIdentifier|..]
  {
    if StartsWith(input, PastebinIdentifier) then
      Download(input[..|PastebinIdentifier|] + RawPath + input[|PastebinIdentifier|..])
    else Inline(input)
  }

  /** Taking `raw/` out of a rewritten link gives back the link the user pasted. */
  lemma RawUrlRoundTrip(input: string)
    requires StartsWith(input, PastebinIdentifier)
    ensures var url := SetSource(input).url;
            url[..|PastebinIdentifier|] + url[|PastebinIdentifier + RawPath|..] == input
  {
    var url := SetSource(input).url;
    assert url[..|PastebinIdentifier|] == PastebinIdentifier;
    assert input == input[..|PastebinIdentifier|] + input[|PastebinIdentifier|..];
  }

  /** `Nullcheck`: `threw` where some argument is null or empty. */
  method Nullcheck(args: seq<Option<string>>) returns (threw: bool)
    ensures threw <==> exists i :: 0 <= i < |args| && (args[i].None? || args[i].value == [])
  {
    var i := 0;
    while i < |args|
      invariant 0 <= i <= |args|
      invariant forall k :: 0 <= k < i ==> args[k].Some? && args[k].value != []
    {
      if args[i].None? || args[i].value == [] {
        return true;
      }
      i := i + 1;
    }
    return false;
  }

  /** The argument of `clear` confirms the wipe when, lower-cased, it is "yes"
      or "y". */
  predicate ClearConfirmed(arg: string)
    ensures ClearConfirmed(arg) ==> (|arg| == 1 || |arg| == 3) && (arg[0] == 'y' || arg[0] == 'Y')
  {
    var answer := Lower(arg);
    answer == "yes" || answer == "y"
  }

  /** Exactly the case variants of "yes" and "y" confirm. */
  lemma ClearConfirmedMeans(arg: string)
    ensures ClearConfirmed(arg) <==>
              (|arg| == 1 && LowerChar(arg[0]) == 'y') ||
              (|arg| == 3 && LowerChar(arg[0]) == 'y' && LowerChar(arg[1]) == 'e' && LowerChar(arg[2]) == 's')
  {
    var answer := Lower(arg);
    if |arg| == 1 && LowerChar(arg[0]) == 'y' {
      assert answer == "y";
    }
    if |arg| == 3 && LowerChar(arg[0]) == 'y' && LowerChar(arg[1]) == 'e' && LowerChar(arg[2]) == 's' {
      assert answer == "yes";
    }
  }

  /** What the permission service keeps for a server and `show` uses. */
  datatype FullData = FullData(pastebinUrl: string, isDirty: bool)

  /** `clear`, run only on a server with stored permissions: the data is wiped
      on confirmation and kept otherwise. */
  function Clear(perms: map<nat, FullData>, serverId: nat, arg: string): (r: map<nat, FullData>)
    requires serverId in perms
    ensures ClearConfirmed(arg) ==> serverId !in r && forall id :: id in r <==> id in perms && id != serverId
    ensures !ClearConfirmed(arg) ==> r == perms
    ensures forall id :: id in r ==> id in perms && r[id] == perms[id]
  {
    if ClearConfirmed(arg) then perms - {serverId} else perms
  }

  /** `show` pastes again when no URL is stored or the data changed. */
  predicate NeedsRepaste(data: FullData)
    ensures !data.isDirty && data.pastebinUrl != [] ==> !NeedsRepaste(data)
    ensures data.isDirty ==> NeedsRepaste(data)
  {
    data.pastebinUrl == [] || data.isDirty
  }

  /** `show`: the data afterwards and the link it replies with; `newPaste` is
      the URL a new paste would get. */
  function Show(data: FullData, newPaste: string): (r: (FullData, string))
    ensures r.1 == "Paste: " + r.0.pastebinUrl
    ensures r.0.isDirty == data.isDirty
    ensures NeedsRepaste(data) ==> r.0.pastebinUrl == newPaste
    ensures !NeedsRepaste(data) ==> r.0 == data
  {
    var after := if NeedsRepaste(data) then data.(pastebinUrl := newPaste) else data;
    (after, "Paste: " + after.pastebinUrl)
  }

  /** Once a clean server has a link, `show` keeps giving that link; nothing in
      `show` clears the dirty mark, so a dirty server is pasted on every call. */
  lemma ShowIsStableWhenClean(data: FullData, first: string, second: string)
    requires !data.isDirty && first != []
    ensures Show(Show(data, first).0, second) == Show(data, first)
  {
  }

  lemma ShowRepastesWhileDirty(data: FullData, first: string, second: string)
    requires data.isDirty
    ensures Show(Show(data, first).0, second).0.pastebinUrl == second
  {
  }
}
