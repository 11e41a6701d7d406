/** The greeting sent to each participant added to a group. */
module Welcome {
  import opened Options
  import opened JsString
  import opened Outbox

  /** The greeting after the mention of the new member, as the template
      literal has it once `trim` has removed the surrounding line breaks and
      indentation (the source's CRLF line ends read as line feeds inside a
      template literal). */
  const GreetingBody: Str :=
    " *\U{1F44B} Bem-vindo(a) ao grupo!*\n\n\U{1F4CC} Para ofertas: *@Megas / @Tabela*\n\U{1F389} J\U{00E1} s\U{00E3}o +3.796 clientes felizes com nossos servi\U{00E7}os!\n\nQualquer d\U{00FA}vida, estamos \U{00E0} disposi\U{00E7}\U{00E3}o!"

  /** The line break and indentation before the closing backtick. */
  const Tail: Str := "\n                "

  /** The template literal before `trim`: a line break, the mention, the
      body, then the tail. */
  function Template(name: Str): Str {
    "\n@" + name + GreetingBody + Tail
  }

  /** `mensagem`: the mention followed by the greeting body, which is what
      trimming the template leaves (`GreetingShape`). */
  function Greeting(name: Str): Str {
    "@" + name + GreetingBody
  }

  lemma TailIsWhitespace()
    ensures AllWhitespace(Tail) && AllWhitespace("\n")
  {
  }

  lemma BodyEndsWithBang()
    ensures |GreetingBody| > 0 && GreetingBody[|GreetingBody| - 1] == '!'
  {
  }

  /** Trimming the template leaves exactly the mention and the body. */
  lemma GreetingShape(name: Str)
    ensures Trim(Template(name)) == Greeting(name)
  {
    var core := "@" + name + GreetingBody;
    BodyEndsWithBang();
    assert core[|core| - 1] == GreetingBody[|GreetingBody| - 1];
    assert core[0] == '@';
    assert Trimmed(core);
    assert Template(name) == "\n" + core + Tail;
    TailIsWhitespace();
    TrimPadded("\n", core, Tail);
  }

  /** `participant.split("@")[0]`: the user part of a JID. */
  function UserPart(jid: Str): Str {
    SplitHead(jid, '@')
  }

  /** The send made for one new participant: to the group, mentioning the
      participant, with the greeting that names the user part of the JID; as
      the caption of the profile picture when a (non-empty) picture URL was
      obtained, as plain text otherwise. */
  function WelcomeMessage(group: Str, participant: Str, picture: Option<Str>): (m: Outbound)
    ensures m.jid == group && m.msg.mentions == [participant]
    ensures m.msg.Image? <==> picture.Some? && picture.value != []
    ensures m.msg.Image? ==> m.msg.url == picture.value
                             && m.msg.caption == "@" + UserPart(participant) + GreetingBody
    ensures m.msg.Text? ==> m.msg.body == "@" + UserPart(participant) + GreetingBody
  {
    var text := Greeting(UserPart(participant));
    if picture.Some? && picture.value != [] then
      Outbound(group, Image(picture.value, text, [participant]))
    else
      Outbound(group, Text(text, [participant]))
  }

  /** What each send carries, as caption or as text, is `mensagem`: the
      template naming the user part of the JID, trimmed. */
  lemma WelcomeCarriesTrimmedTemplate(group: Str, participant: Str, picture: Option<Str>)
    ensures var m := WelcomeMessage(group, participant, picture);
            (if m.msg.Image? then m.msg.caption else m.msg.body) == Trim(Template(UserPart(participant)))
  {
    GreetingShape(UserPart(participant));
  }

  /** For an ordinary JID the greeting names exactly the user. */
  lemma GreetingNamesUser(user: Str, server: Str)
    requires '@' !in user
    ensures Trim(Template(UserPart(user + "@" + server))) == "@" + user + GreetingBody
  {
    SplitHeadOfJoin(user, '@', server);
    GreetingShape(user);
  }

  /** The `group-participants.update` listener: for an "add" action, one
      send per participant, in order, each one attempted whatever happened
      to the ones before it; `pictureAt(i)` is the profile picture URL found
      for the `i`-th participant (None when the lookup failed). Any other
      action sends nothing. */
  method WelcomeAll(group: Str, participants: seq<Str>, action: Str, pictureAt: nat -> Option<Str>)
    returns (sends: seq<Outbound>)
    ensures action != "add" ==> sends == []
    ensures action == "add" ==> |sends| == |participants|
    ensures action == "add" ==> forall i :: 0 <= i < |participants| ==>
              sends[i] == WelcomeMessage(group, participants[i], pictureAt(i))
  {
    sends := [];
    if action == "add" {
      for i := 0 to |participants|
        invariant |sends| == i
        invariant forall k :: 0 <= k < i ==> sends[k] == WelcomeMessage(group, participants[k], pictureAt(k))
      {
        sends := sends + [WelcomeMessage(group, participants[i], pictureAt(i))];
      }
    }
  }
}
