/** The wiki host's services that the resolver calls but whose code is not part of this
    model. They are carried as function values, so every property proved below holds
    whatever the host's messages, escaping and argument substitution do, unless a
    lemma states an assumption about them. */
module HostServices {

  datatype Host = Host(
    /** `htmlspecialchars` */
    escape: string -> string,
    /** `wfMsg(key, args...)`: a message in the reader's interface language */
    msg: (string, seq<string>) -> string,
    /** `wfMsgForContent(key, args...)`: a message in the wiki's content language */
    msgForContent: (string, seq<string>) -> string,
    /** `wfMsgReplaceArgs(template, args)`: positional `$1`, `$2`, ... substitution */
    replaceArgs: (string, seq<string>) -> string)

  /** The one assumption about the escaping primitive some lemmas need: it maps the
      empty string, and only the empty string, to the empty string. */
  ghost predicate EscapeKeepsEmptiness(h: Host) {
    forall s :: h.escape(s) == [] <==> s == []
  }

  /** The cache-invalidation half of the host's parser object: `disableCache()`.
      The ghost counter records how often the resolver asked for it. */
  class Parser {
    ghost var disableCacheCalls: nat

    constructor ()
      ensures disableCacheCalls == 0
    {
      disableCacheCalls := 0;
    }

    method DisableCache()
      modifies this
      ensures disableCacheCalls == old(disableCacheCalls) + 1
    {
      disableCacheCalls := disableCacheCalls + 1;
    }
  }
}
