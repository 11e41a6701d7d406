/** Pre-dispatch and command routing of one inbound message: which handlers
    the `messages.upsert` listener calls, and in which order. */
module Routing {
  import opened JsString

  /** The command handlers the listener can choose between, plus the choice
      of none. */
  datatype Handler =
    | Listar      // handleListar: "@concorrentes"
    | Remove      // handleRemove: "@remove..." or "/remove..."
    | Ban         // handleBan: "@ban..." or "/ban..."
    | Pagamento   // handlePagamento: "@pagamentos"
    | Grupo       // handleGrupo: "@grupo on" or "@grupo off"
    | Compra      // handleCompra: "@compra...", "@rentanas..."
    | Concorrer   // handleConcorrer: "@concorrencia", from a group only
    | Tabela      // handleTabela: "@tabela"
    | Todos       // handleTodos: "@todos"
    | Generic     // handleMessage: any other text starting with '@' or '/'
    | NoHandler   // no command handler is called

  /** A WhatsApp group address ends in "@g.us". */
  predicate IsGroupJid(jid: Str) {
    EndsWith(jid, "@g.us")
  }

  /** The text starts with one of the two command sigils. */
  predicate HasSigil(t: Str) {
    StartsWith(t, "@") || StartsWith(t, "/")
  }

  /** The `if`/`else if` chain over the lower-cased text: the first rule that
      matches picks the handler. A handler is chosen exactly when the text
      starts with a sigil. */
  function Route(lower: Str, sender: Str): (h: Handler)
    ensures h != NoHandler <==> HasSigil(lower)
  {
    if lower == "@concorrentes" then Listar
    else if StartsWith(lower, "@remove") || StartsWith(lower, "/remove") then Remove
    else if StartsWith(lower, "@ban") || StartsWith(lower, "/ban") then Ban
    else if lower == "@pagamentos" then Pagamento
    else if lower in ["@grupo on", "@grupo off"] then Grupo
    else if StartsWith(lower, "@compra") || StartsWith(lower, "@rentanas")
            || StartsWith(lower, "@remove rentanas") then Compra
    else if IsGroupJid(sender) && lower == "@concorrencia" then Concorrer
    else if lower == "@tabela" then Tabela
    else if lower == "@todos" then Todos
    else if HasSigil(lower) then Generic
    else NoHandler
  }

  /** The Remove rule: chosen exactly for the "@remove" and "/remove"
      prefixes, including "@remove rentanas". */
  lemma RouteRemove(t: Str, sender: Str)
    ensures Route(t, sender) == Remove <==> StartsWith(t, "@remove") || StartsWith(t, "/remove")
  {
    if StartsWith(t, "@remove") { PrefixesExclusive(t, "@remove", "@concorrentes", 1); }
    if StartsWith(t, "/remove") { PrefixesExclusive(t, "/remove", "@concorrentes", 1); }
  }

  /** The Ban rule: chosen exactly for the "@ban" and "/ban" prefixes. */
  lemma RouteBan(t: Str, sender: Str)
    ensures Route(t, sender) == Ban <==> StartsWith(t, "@ban") || StartsWith(t, "/ban")
  {
    if StartsWith(t, "@ban") || StartsWith(t, "/ban") {
      var p := if StartsWith(t, "@ban") then "@ban" else "/ban";
      PrefixesExclusive(t, p, "@concorrentes", 1);
      PrefixesExclusive(t, p, "@remove", 1);
      PrefixesExclusive(t, p, "/remove", 1);
    }
  }

  /** The Compra rule: chosen exactly for the "@compra" and "@rentanas"
      prefixes; its third pattern, "@remove rentanas", is shadowed. */
  lemma RouteCompra(t: Str, sender: Str)
    ensures Route(t, sender) == Compra <==> StartsWith(t, "@compra") || StartsWith(t, "@rentanas")
  {
    if StartsWith(t, "@remove rentanas") {
      StartsWithTrans(t, "@remove rentanas", "@remove");
    }
    if StartsWith(t, "@compra") {
      PrefixesExclusive(t, "@compra", "@concorrentes", 3);
      PrefixesExclusive(t, "@compra", "@remove", 1);
      PrefixesExclusive(t, "@compra", "/remove", 1);
      PrefixesExclusive(t, "@compra", "@ban", 1);
      PrefixesExclusive(t, "@compra", "/ban", 1);
      PrefixesExclusive(t, "@compra", "@pagamentos", 1);
      PrefixesExclusive(t, "@compra", "@grupo on", 1);
      PrefixesExclusive(t, "@compra", "@grupo off", 1);
    } else if StartsWith(t, "@rentanas") {
      PrefixesExclusive(t, "@rentanas", "@concorrentes", 1);
      PrefixesExclusive(t, "@rentanas", "@remove", 3);
      PrefixesExclusive(t, "@rentanas", "/remove", 0);
      PrefixesExclusive(t, "@rentanas", "@ban", 1);
      PrefixesExclusive(t, "@rentanas", "/ban", 0);
      PrefixesExclusive(t, "@rentanas", "@pagamentos", 1);
      PrefixesExclusive(t, "@rentanas", "@grupo on", 1);
      PrefixesExclusive(t, "@rentanas", "@grupo off", 1);
    }
  }

  /** The exact-match rules: each literal is chosen exactly when the text is
      that literal, "@concorrencia" only from a group. */
  lemma RouteExact(t: Str, sender: Str)
    ensures Route(t, sender) == Listar <==> t == "@concorrentes"
    ensures Route(t, sender) == Pagamento <==> t == "@pagamentos"
    ensures Route(t, sender) == Grupo <==> t == "@grupo on" || t == "@grupo off"
    ensures Route(t, sender) == Concorrer <==> IsGroupJid(sender) && t == "@concorrencia"
    ensures Route(t, sender) == Tabela <==> t == "@tabela"
    ensures Route(t, sender) == Todos <==> t == "@todos"
  {
    if t == "@pagamentos" {
      PrefixesExclusive(t, t, "@concorrentes", 1);
      PrefixesExclusive(t, t, "@remove", 1);
      PrefixesExclusive(t, t, "/remove", 0);
      PrefixesExclusive(t, t, "@ban", 1);
      PrefixesExclusive(t, t, "/ban", 0);
    } else if t == "@grupo on" || t == "@grupo off" {
      PrefixesExclusive(t, t, "@concorrentes", 1);
      PrefixesExclusive(t, t, "@remove", 1);
      PrefixesExclusive(t, t, "/remove", 0);
      PrefixesExclusive(t, t, "@ban", 1);
      PrefixesExclusive(t, t, "/ban", 0);
      PrefixesExclusive(t, t, "@pagamentos", 1);
    } else if t == "@concorrencia" {
      ExcludedBeforeConcorrer(t);
    } else if t == "@tabela" || t == "@todos" {
      ExcludedBeforeConcorrer(t);
      PrefixesExclusive(t, t, "@concorrencia", 1);
      if t == "@todos" { PrefixesExclusive(t, t, "@tabela", 2); }
    }
  }

  /** The literals "@concorrencia", "@tabela" and "@todos" match none of the
      rules above the Concorrer rule. */
  lemma ExcludedBeforeConcorrer(t: Str)
    requires t == "@concorrencia" || t == "@tabela" || t == "@todos"
    ensures t != "@concorrentes" && t != "@pagamentos" && t != "@grupo on" && t != "@grupo off"
    ensures !StartsWith(t, "@remove") && !StartsWith(t, "/remove")
    ensures !StartsWith(t, "@ban") && !StartsWith(t, "/ban")
    ensures !StartsWith(t, "@compra") && !StartsWith(t, "@rentanas") && !StartsWith(t, "@remove rentanas")
  {
    var k := if t == "@concorrencia" then 10 else 1;
    PrefixesExclusive(t, t, "@remove", 1);
    PrefixesExclusive(t, t, "/remove", 0);
    PrefixesExclusive(t, t, "@ban", 1);
    PrefixesExclusive(t, t, "/ban", 0);
    PrefixesExclusive(t, t, "@pagamentos", 1);
    PrefixesExclusive(t, t, "@grupo on", 1);
    PrefixesExclusive(t, t, "@grupo off", 1);
    PrefixesExclusive(t, t, "@rentanas", 1);
    PrefixesExclusive(t, t, "@remove rentanas", 1);
    PrefixesExclusive(t, t, "@compra", if t == "@concorrencia" then 3 else 1);
    PrefixesExclusive(t, t, "@concorrentes", k);
  }

  /** "@remove rentanas..." is handled by Remove: the third pattern of the
      Compra rule can never fire. */
  lemma RemoveRentanasShadowed(t: Str, sender: Str)
    requires StartsWith(t, "@remove rentanas")
    ensures Route(t, sender) == Remove
    ensures Route(t, sender) != Compra
  {
    StartsWithTrans(t, "@remove rentanas", "@remove");
  }

  /** "@concorrencia" reaches Concorrer only from a group; from a private
      chat it falls through to the generic handler. */
  lemma ConcorrenciaByOrigin(sender: Str)
    ensures Route("@concorrencia", sender) == if IsGroupJid(sender) then Concorrer else Generic
  {
    var t := "@concorrencia";
    ExcludedBeforeConcorrer(t);
    PrefixesExclusive(t, t, "@tabela", 1);
    PrefixesExclusive(t, t, "@todos", 1);
    assert HasSigil(t);
  }

  /** The handlers the listener awaits for one message: the receipt-photo
      handler, the pix detector, then at most one command handler. */
  datatype Call = PhotoReceipt | PixDetector | Command(handler: Handler)

  /** Position of a call in the fixed order of the listener. */
  function Stage(c: Call): nat {
    match c
    case PhotoReceipt => 0
    case PixDetector => 1
    case Command(_) => 2
  }

  /** The calls made for one message, in order. The photo handler runs
      exactly when an image arrives from a group, the pix detector always
      runs, every call keeps the listener's order (so each appears at most
      once), and the one command called, if any, is the routed handler. */
  function Dispatch(lower: Str, sender: Str, hasImage: bool): (plan: seq<Call>)
    ensures PhotoReceipt in plan <==> hasImage && IsGroupJid(sender)
    ensures PixDetector in plan
    ensures forall i, j :: 0 <= i < j < |plan| ==> Stage(plan[i]) < Stage(plan[j])
    ensures forall h :: Command(h) in plan <==> h == Route(lower, sender) && h != NoHandler
    ensures Command(NoHandler) !in plan
  {
    var photo := if hasImage && IsGroupJid(sender) then [PhotoReceipt] else [];
    var h := Route(lower, sender);
    var command := if h == NoHandler then [] else [Command(h)];
    photo + [PixDetector] + command
  }

  /** A text without a sigil calls only the pre-dispatch handlers. */
  lemma PlainTextCallsNoCommand(lower: Str, sender: Str, hasImage: bool)
    requires !HasSigil(lower)
    ensures forall c :: c in Dispatch(lower, sender, hasImage) ==> !c.Command?
  {
  }
}
