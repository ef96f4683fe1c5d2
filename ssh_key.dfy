/**
 * The SSH key editor of a virtual machine (PVE.qemu.SSHKeyInputPanel and
 * PVE.qemu.SSHKeyEdit): the key is submitted URI-encoded, an empty one as a
 * deletion, and decoded again when the window loads the configuration.
 *
 * encodeURIComponent and decodeURIComponent are not part of this model:
 * they are parameters. Reading a file (FileReader) is modelled as the text
 * it produced.
 */
module SshKey {
  import opened Js

  /** The `length` of a value: the characters of a string, the items of an array; reading it off null or undefined throws. */
  function Length(v: Value): (r: Result<Option<nat>>)
    ensures r.Err? <==> IsNullish(v)
    ensures r.Err? ==> r.msg == TypeError
    ensures v.Str? ==> r == Ok(Some(|v.s|))
    ensures v.List? ==> r == Ok(Some(|v.items|))
    ensures v.Num? || v.Bool? ==> r == Ok(None)
  {
    match v
    case Undefined => Err(TypeError)
    case Null => Err(TypeError)
    case Str(s) => Ok(Some(|s|))
    case List(xs) => Ok(Some(|xs|))
    case _ => Ok(None)
  }

  /**
   * onGetValues: a truthy key is trimmed first, which throws for anything
   * but a string, and the trimmed text is thrown away, so a string key is
   * used as it stands; a key without length is replaced by the single entry
   * delete=sshkey, any other is submitted URI-encoded beside the rest.
   */
  function OnGetValues(values: Obj, encode: string -> string): (r: Result<Obj>)
    ensures var key := Get(values, "sshkey");
            r.Err? <==> IsNullish(key) || (Truthy(key) && !key.Str?)
    ensures r.Err? ==> r.msg == TypeError
    ensures var key := Get(values, "sshkey");
            !IsNullish(key) && !Truthy(key) ==> r == Ok(map["delete" := Str("sshkey")])
    ensures var key := Get(values, "sshkey");
            key.Str? && key.s != "" ==> r == Ok(values["sshkey" := Str(encode(key.s))])
  {
    var key := Get(values, "sshkey");
    if Truthy(key) && !key.Str? then Err(TypeError)
    else
      match Length(key)
      case Err(msg) => Err(msg)
      case Ok(len) =>
        if len.None? || len.value == 0 then Ok(map["delete" := Str("sshkey")])
        else Ok(values["sshkey" := Str(encode(ToStr(key)))])
  }

  /**
   * A key of white space alone is not empty: it is submitted (encoded) as
   * it is, not deleted.
   */
  lemma BlankKeySubmitted(values: Obj, blank: string, encode: string -> string)
    requires blank != [] && forall i :: 0 <= i < |blank| ==> IsSpace(blank[i])
    requires Get(values, "sshkey") == Str(blank)
    ensures OnGetValues(values, encode) == Ok(values["sshkey" := Str(encode(blank))])
    ensures "delete" !in values ==> "delete" !in OnGetValues(values, encode).value
  {
  }

  /** The key field of the input panel. */
  class SshKeyPanel {
    var sshkey: string

    constructor()
      ensures sshkey == ""
    {
      sshkey := "";
    }

    /** The form values the panel submits. */
    function Values(): (r: Obj)
      reads this
      ensures r.Keys == {"sshkey"} && r["sshkey"] == Str(sshkey)
    {
      map["sshkey" := Str(sshkey)]
    }

    /** addFromFile: the text read from the file replaces the key. */
    method AddFromFile(text: string)
      modifies this
      ensures sshkey == text
    {
      sshkey := text;
    }

    /**
     * The load of the edit window: a present key is decoded and set; an
     * absent or empty one leaves the field as it is.
     */
    method OnLoad(data: Obj, decode: string -> string)
      modifies this
      ensures Truthy(Get(data, "sshkey")) ==> sshkey == decode(ToStr(Get(data, "sshkey")))
      ensures !Truthy(Get(data, "sshkey")) ==> sshkey == old(sshkey)
    {
      if Truthy(Get(data, "sshkey")) {
        sshkey := decode(ToStr(Get(data, "sshkey")));
      }
    }
  }

  /** What the configuration holds after a submission: the values written, or the key deleted. */
  function Stored(config: Obj, submitted: Obj): (r: Obj)
    ensures "delete" in submitted && submitted["delete"] == Str("sshkey") && "sshkey" !in submitted ==> "sshkey" !in r
    ensures "sshkey" in submitted ==> "sshkey" in r && r["sshkey"] == submitted["sshkey"]
  {
    if "delete" in submitted && submitted["delete"] == Str("sshkey") && "sshkey" !in submitted then config - {"sshkey"}
    else config + submitted
  }

  /**
   * A key entered in the panel, submitted and loaded again in a new editor
   * comes back unchanged, white space included, as long as decoding undoes
   * encoding and only the empty text encodes to the empty text; an empty
   * key comes back as the empty field.
   */
  method RoundTrip(text: string, config: Obj, encode: string -> string, decode: string -> string) returns (loaded: string)
    requires forall s :: decode(encode(s)) == s
    requires forall s :: encode(s) == "" <==> s == ""
    ensures loaded == text
  {
    var p := new SshKeyPanel();
    p.AddFromFile(text);
    var submitted := OnGetValues(p.Values(), encode);
    var q := new SshKeyPanel();
    q.OnLoad(Stored(config, submitted.value), decode);
    loaded := q.sshkey;
  }
}
