/** Canonical transaction types, and which fee a cell is. Letters are those whose upper and lower case are
    inverse to each other; compatibility normalisation is left out. */
module FeeClassification {
  import opened Prelude

  // ---- characters ----------------------------------------------------------------------------

  predicate IsUpper(c: char) {
    'A' <= c <= 'Z' || ('\U{C0}' <= c <= '\U{DE}' && c != '\U{D7}') || c == '\U{141}' || c == '\U{15E}'
  }

  function Lower(c: char): (l: char)
    ensures !IsUpper(l) && IsAlnum(l) == IsAlnum(c) && IsSpace(l) == IsSpace(c) && (l == '_' <==> c == '_')
            && (l == '-' <==> c == '-')
    ensures Upper(l) == Upper(c)
  {
    if 'A' <= c <= 'Z' || ('\U{C0}' <= c <= '\U{DE}' && c != '\U{D7}') then c + ' '
    else if c == '\U{141}' || c == '\U{15E}' then c + '\U{1}'
    else c
  }

  function Upper(c: char): char {
    if 'a' <= c <= 'z' || ('\U{E0}' <= c <= '\U{FE}' && c != '\U{F7}') then c - ' '
    else if c == '\U{142}' || c == '\U{15F}' then c - '\U{1}'
    else c
  }

  predicate IsSpace(c: char) {
    c == ' ' || '\U{9}' <= c <= '\U{D}' || c == '\U{A0}'
  }

  predicate IsAlnum(c: char) {
    '0' <= c <= '9' || 'A' <= c <= 'Z' || 'a' <= c <= 'z' || (c >= '\U{C0}' && c != '\U{D7}' && c != '\U{F7}')
  }

  /** The class [_\s-] that words() collapses. */
  predicate IsGap(c: char) {
    c == '_' || c == '-' || IsSpace(c)
  }

  // ---- strings -------------------------------------------------------------------------------

  function Lowered(s: string): (r: string)
    ensures |r| == |s|
  {
    seq(|s|, i requires 0 <= i < |s| => Lower(s[i]))
  }

  function Uppered(s: string): (r: string)
    ensures |r| == |s|
  {
    seq(|s|, i requires 0 <= i < |s| => Upper(s[i]))
  }

  function TrimLeft(s: string): string {
    if s != "" && IsSpace(s[0]) then TrimLeft(s[1..]) else s
  }

  function TrimRight(s: string): string {
    if s != "" && IsSpace(s[|s| - 1]) then TrimRight(s[..|s| - 1]) else s
  }

  /** replace(/[_\s-]+/gu, " "). */
  function CollapseGaps(s: string): string {
    if s == "" then ""
    else if !IsGap(s[0]) then [s[0]] + CollapseGaps(s[1..])
    else if |s| > 1 && IsGap(s[1]) then CollapseGaps(s[1..])
    else " " + CollapseGaps(s[1..])
  }

  /** replace(/[^\p{L}\p{N}]+/gu, "_"). */
  function CollapseOthers(s: string): string {
    if s == "" then ""
    else if IsAlnum(s[0]) then [s[0]] + CollapseOthers(s[1..])
    else if |s| > 1 && !IsAlnum(s[1]) then CollapseOthers(s[1..])
    else "_" + CollapseOthers(s[1..])
  }

  function Words(value: string): string {
    CollapseGaps(Lowered(TrimRight(TrimLeft(value))))
  }

  function Joined(words: string): string {
    Uppered(CollapseOthers(words))
  }

  function StartsWith(s: string, token: string): bool {
    |token| <= |s| && s[..|token|] == token
  }

  predicate Includes(s: string, token: string) {
    exists i | 0 <= i <= |s| :: StartsWith(s[i..], token)
  }

  // ---- the policy ----------------------------------------------------------------------------

  const REFUND_TYPES: seq<string> :=
    ["refund", "erstattung", "remboursement", "rimborso", "reembolso", "zwrot", "återbetalning", "iade", "返金"]

  const ORDER_TYPES: seq<string> :=
    ["order", "bestellung", "bestelling", "beställning", "commande", "ordine", "pedido", "zamówienie", "sipariş",
     "注文"]

  const TRANSFER_TYPES: seq<string> :=
    ["transfer", "transferir", "trasferir", "übertrag", "übertragung", "transfert", "transférer", "trasferimento",
     "przelew", "överföring", "overboeking", "transferencia", "aktarım", "振替", "振込み"]

  const DEBT_TYPES: seq<string> :=
    ["debt", "schuld", "verbindlichkeit", "dette", "debito", "dług", "skuld", "deuda", "saldo descubierto",
     "saldo negativo", "solde négatif", "borç", "債務", "マイナス残高"]

  const INVENTORY_TOKENS: seq<string> :=
    ["inventory", "lager", "stock", "stockage", "almac", "inventario", "stoccagg", "保管", "在庫"]

  const AMAZON_TOKENS: seq<string> := ["fba", "amazon"]

  const ADVERTISING: seq<string> :=
    ["cost of advertising", "gastos de publicidad", "costo de la publicidad", "prix de la publicité",
     "costo della pubblicità", "koszt reklamy", "広告費用"]

  predicate IncludesAny(s: string, tokens: seq<string>) {
    exists i | 0 <= i < |tokens| :: Includes(s, tokens[i])
  }

  predicate IsInventoryFee(words: string) {
    IncludesAny(words, INVENTORY_TOKENS) && IncludesAny(words, AMAZON_TOKENS)
  }

  /** The canonical type of words the policy knows. */
  function KnownType(words: string): Option<string> {
    if words in REFUND_TYPES then Some("REFUND")
    else if words in ORDER_TYPES then Some("ORDER")
    else if words == "fba inventory fee reversal" then Some("FBA_INVENTORY_FEE_REVERSAL")
    else if words == "fba inventory fee correction" then Some("FBA_INVENTORY_FEE_CORRECTION")
    else if IsInventoryFee(words) then Some("FBA_INVENTORY_FEE")
    else if words in TRANSFER_TYPES then Some("TRANSFER")
    else if words in DEBT_TYPES then Some("DEBT")
    else None
  }

  function CanonicalType(value: string): string {
    var words := Words(value);
    if KnownType(words).Some? then KnownType(words).value else Joined(words)
  }

  function CanonicalDescription(value: string): string {
    var words := Words(value);
    if words in ADVERTISING then "COST_OF_ADVERTISING" else Joined(words)
  }

  // ---- one more application reaches a fixpoint -----------------------------------------------

  /** Letters and digits in lower case, with single marks between them. */
  predicate Neat(s: string, mark: char) {
    s == "" || (!IsUpper(s[0]) && (IsAlnum(s[0]) || (s[0] == mark && (|s| > 1 ==> s[1] != mark))) && Neat(s[1..], mark))
  }

  predicate NoUpper(s: string) {
    forall i | 0 <= i < |s| :: !IsUpper(s[i])
  }

  function Marked(s: string, from: char, to: char): (r: string)
    ensures |r| == |s|
  {
    if s == "" then "" else [if s[0] == from then to else s[0]] + Marked(s[1..], from, to)
  }

  lemma {:induction false} CollapseOthersIsNeat(s: string)
    requires NoUpper(s)
    ensures Neat(CollapseOthers(s), '_')
    ensures s != "" && IsAlnum(s[0]) ==> CollapseOthers(s) != "" && CollapseOthers(s)[0] == s[0]
  {
    hide IsUpper, IsAlnum;
    if s != "" {
      CollapseOthersIsNeat(s[1..]);
      var rest := CollapseOthers(s[1..]);
      assert ([s[0]] + rest)[1..] == rest && ("_" + rest)[1..] == rest;
      Separators(s[0]);
      if |s| > 1 { Separators(s[1]); }
    }
  }

  /** Marks are neither letters nor digits, and gaps are neither. */
  lemma Separators(c: char)
    ensures !IsAlnum('_') && !IsAlnum(' ') && !IsUpper('_') && !IsUpper(' ') && IsGap('_') && IsGap(' ')
    ensures IsAlnum(c) ==> !IsGap(c) && c != '_' && c != ' '
  {
  }

  lemma {:induction false} NeatOthers(s: string)
    requires Neat(s, ' ')
    ensures CollapseOthers(s) == Marked(s, ' ', '_')
  {
    hide IsUpper, IsAlnum, IsGap;
    if s != "" {
      NeatOthers(s[1..]);
      Separators(s[0]);
    }
  }

  lemma {:induction false} NeatGaps(s: string)
    requires Neat(s, '_')
    ensures CollapseGaps(s) == Marked(s, '_', ' ')
  {
    hide IsUpper, IsAlnum, IsGap;
    if s != "" {
      NeatGaps(s[1..]);
      Separators(s[0]);
      if |s| > 1 { Separators(s[1]); }
    }
  }

  /** Words of a joined string are neat, and join to it again. */
  lemma {:induction false} MarkedBack(s: string)
    requires Neat(s, '_')
    ensures Marked(Marked(s, '_', ' '), ' ', '_') == s && Neat(Marked(s, '_', ' '), ' ')
  {
    hide IsUpper, IsAlnum, IsGap;
    if s != "" {
      MarkedBack(s[1..]);
      Separators(s[0]);
      var rest := Marked(s[1..], '_', ' ');
      var all := Marked(s, '_', ' ');
      assert all[1..] == rest;
      if |s| > 1 {
        Separators(s[1]);
        assert rest[0] == if s[1] == '_' then ' ' else s[1];
      }
    }
  }

  lemma {:induction false} CollapseGapsKeepsCase(s: string)
    requires NoUpper(s)
    ensures NoUpper(CollapseGaps(s))
  {
    hide IsUpper, IsAlnum, IsGap;
    if s != "" {
      CollapseGapsKeepsCase(s[1..]);
      Separators(s[0]);
    }
  }

  lemma WordsAreLower(value: string)
    ensures NoUpper(Words(value))
  {
    CollapseGapsKeepsCase(Lowered(TrimRight(TrimLeft(value))));
  }

  lemma {:induction false} NeatHasNoSpace(s: string)
    requires Neat(s, '_')
    ensures NoUpper(s) && forall i | 0 <= i < |s| :: !IsSpace(s[i])
  {
    if s != "" {
      NeatHasNoSpace(s[1..]);
    }
  }

  lemma CaseIsInverse(c: char)
    requires !IsUpper(c)
    ensures Lower(Upper(c)) == c && IsSpace(Upper(c)) == IsSpace(c)
  {
  }

  /** The words of an upper-cased joined string are that string again, with spaces for the marks. */
  lemma WordsOfJoined(s: string)
    requires Neat(s, '_')
    ensures Words(Uppered(s)) == Marked(s, '_', ' ') && Joined(Words(Uppered(s))) == Uppered(s)
  {
    hide IsUpper, IsAlnum, IsGap, IsSpace, Lower, Upper;
    var u := Uppered(s);
    NeatHasNoSpace(s);
    forall i | 0 <= i < |s| ensures Lower(u[i]) == s[i] && !IsSpace(u[i]) {
      CaseIsInverse(s[i]);
    }
    assert TrimRight(TrimLeft(u)) == u;
    assert Lowered(u) == s;
    NeatGaps(s);
    MarkedBack(s);
    NeatOthers(Marked(s, '_', ' '));
  }

  predicate KnownCanonical(t: string) {
    || t == "REFUND" || t == "ORDER" || t == "FBA_INVENTORY_FEE_REVERSAL" || t == "FBA_INVENTORY_FEE_CORRECTION"
    || t == "FBA_INVENTORY_FEE" || t == "TRANSFER" || t == "DEBT"
  }

  lemma KnownTypeIsCanonical(words: string)
    ensures KnownType(words).Some? ==> KnownCanonical(KnownType(words).value)
  {
  }

  // ---- the canonical names themselves --------------------------------------------------------

  predicate Plain(s: string) {
    forall i | 0 <= i < |s| :: 'a' <= s[i] <= 'z'
  }

  lemma {:induction false} PlainIsNeat(s: string)
    requires Plain(s)
    ensures Neat(s, '_') && Marked(s, '_', ' ') == s
  {
    if s != "" {
      PlainIsNeat(s[1..]);
    }
  }

  lemma {:induction false} PlainJoins(a: string, b: string)
    requires Plain(a) && a != "" && Neat(b, '_') && b != "" && b[0] != '_'
    ensures Neat(a + "_" + b, '_') && Marked(a + "_" + b, '_', ' ') == a + " " + Marked(b, '_', ' ')
  {
    var all := a + "_" + b;
    if |a| == 1 {
      assert all[1..] == "_" + b && ("_" + b)[1..] == b;
      assert Marked("_" + b, '_', ' ') == " " + Marked(b, '_', ' ');
    } else {
      PlainJoins(a[1..], b);
      assert all[1..] == a[1..] + "_" + b;
    }
  }

  lemma UpperedJoins(a: string, b: string)
    ensures Uppered(a + "_" + b) == Uppered(a) + "_" + Uppered(b)
  {
  }

  lemma WordsOfPlain(s: string)
    requires Plain(s)
    ensures Words(Uppered(s)) == s
  {
    PlainIsNeat(s);
    WordsOfJoined(s);
  }

  lemma WordsOfThree(a: string, b: string, c: string)
    requires Plain(a) && Plain(b) && Plain(c) && a != "" && b != "" && c != ""
    ensures Words(Uppered(a) + "_" + (Uppered(b) + "_" + Uppered(c))) == a + " " + (b + " " + c)
    ensures Neat(b + "_" + c, '_')
  {
    PlainIsNeat(c);
    PlainJoins(b, c);
    PlainJoins(a, b + "_" + c);
    UpperedJoins(b, c);
    UpperedJoins(a, b + "_" + c);
    WordsOfJoined(a + "_" + (b + "_" + c));
    assert a + "_" + (b + "_" + c) == a + "_" + (b + "_" + c);
  }

  lemma WordsOfFour(a: string, b: string, c: string, d: string)
    requires Plain(a) && Plain(b) && Plain(c) && Plain(d) && a != "" && b != "" && c != "" && d != ""
    ensures Words(Uppered(a) + "_" + (Uppered(b) + "_" + (Uppered(c) + "_" + Uppered(d))))
            == a + " " + (b + " " + (c + " " + d))
  {
    PlainIsNeat(d);
    PlainJoins(c, d);
    PlainJoins(b, c + "_" + d);
    PlainJoins(a, b + "_" + (c + "_" + d));
    UpperedJoins(c, d);
    UpperedJoins(b, c + "_" + d);
    UpperedJoins(a, b + "_" + (c + "_" + d));
    WordsOfJoined(a + "_" + (b + "_" + (c + "_" + d)));
  }

  lemma MissingLetter(s: string, token: string, k: nat)
    requires k < |token| && token[k] !in s
    ensures !Includes(s, token)
  {
    forall i | 0 <= i <= |s| ensures !StartsWith(s[i..], token) {
      if i + |token| <= |s| {
        assert s[i..][..|token|][k] == s[i + k];
      }
    }
  }

  lemma NoAmazon(s: string)
    requires 'b' !in s && ('m' !in s || 'z' !in s)
    ensures !IsInventoryFee(s)
  {
    MissingLetter(s, "fba", 1);
    if 'm' !in s { MissingLetter(s, "amazon", 1); } else { MissingLetter(s, "amazon", 3); }
    assert AMAZON_TOKENS == ["fba", "amazon"];
  }

  lemma RefundIsFixed()
    ensures CanonicalType("REFUND") == "REFUND"
  {
    hide Words, Joined, IsInventoryFee;
    assert Uppered("refund") == "REFUND";
    WordsOfPlain("refund");
    assert REFUND_TYPES[0] == "refund";
  }

  lemma OrderIsFixed()
    ensures CanonicalType("ORDER") == "ORDER"
  {
    hide Words, Joined, IsInventoryFee;
    assert Uppered("order") == "ORDER";
    WordsOfPlain("order");
    assert ORDER_TYPES[0] == "order";
    assert "order" !in REFUND_TYPES;
  }

  lemma TransferIsFixed()
    ensures CanonicalType("TRANSFER") == "TRANSFER"
  {
    hide Words, Joined, IsInventoryFee;
    assert Uppered("transfer") == "TRANSFER";
    WordsOfPlain("transfer");
    NoAmazon("transfer");
    assert TRANSFER_TYPES[0] == "transfer";
    assert "transfer" !in REFUND_TYPES && "transfer" !in ORDER_TYPES;
  }

  lemma DebtIsNoInventoryFee()
    ensures !IsInventoryFee("debt")
  {
    MissingLetter("debt", "fba", 0);
    MissingLetter("debt", "amazon", 0);
    assert AMAZON_TOKENS == ["fba", "amazon"];
  }

  lemma DebtIsFixed()
    ensures CanonicalType("DEBT") == "DEBT"
  {
    hide Words, Joined, IsInventoryFee;
    assert Uppered("debt") == "DEBT";
    WordsOfPlain("debt");
    DebtIsNoInventoryFee();
    assert DEBT_TYPES[0] == "debt";
    assert "debt" !in REFUND_TYPES && "debt" !in ORDER_TYPES && "debt" !in TRANSFER_TYPES;
  }

  /** The refund and order words are shorter than the inventory fee types. */
  lemma ShortTypes(words: string)
    requires |words| >= 14
    ensures words !in REFUND_TYPES && words !in ORDER_TYPES
  {
    assert forall i | 0 <= i < |REFUND_TYPES| :: |REFUND_TYPES[i]| < 14;
    assert forall i | 0 <= i < |ORDER_TYPES| :: |ORDER_TYPES[i]| < 14;
  }

  lemma UpperedWords()
    ensures Uppered("fba") == "FBA" && Uppered("inventory") == "INVENTORY" && Uppered("fee") == "FEE"
  {
  }

  lemma FeeNames()
    ensures "FBA" + "_" + ("INVENTORY" + "_" + "FEE") == "FBA_INVENTORY_FEE"
    ensures "fba" + " " + ("inventory" + " " + "fee") == "fba inventory fee"
  {
  }

  lemma ReversalNames()
    ensures "FBA" + "_" + ("INVENTORY" + "_" + ("FEE" + "_" + "REVERSAL")) == "FBA_INVENTORY_FEE_REVERSAL"
    ensures "fba" + " " + ("inventory" + " " + ("fee" + " " + "reversal")) == "fba inventory fee reversal"
  {
  }

  lemma CorrectionName()
    ensures "FBA" + "_" + ("INVENTORY" + "_" + ("FEE" + "_" + "CORRECTION")) == "FBA_INVENTORY_FEE_CORRECTION"
  {
  }

  lemma CorrectionWords()
    ensures "fba" + " " + ("inventory" + " " + ("fee" + " " + "correction")) == "fba inventory fee correction"
  {
  }

  lemma InventoryFeeIsFixed()
    ensures CanonicalType("FBA_INVENTORY_FEE") == "FBA_INVENTORY_FEE"
  {
    hide Words, Joined, Uppered;
    var w := "fba inventory fee";
    UpperedWords();
    WordsOfThree("fba", "inventory", "fee");
    FeeNames();
    ShortTypes(w);
    assert KnownType(w) == Some("FBA_INVENTORY_FEE") by { InventoryFeeWords(); }
  }

  lemma InventoryFeeWords()
    ensures IsInventoryFee("fba inventory fee")
  {
    var w := "fba inventory fee";
    assert StartsWith(w[0..], AMAZON_TOKENS[0]);
    assert StartsWith(w[4..], INVENTORY_TOKENS[0]);
  }

  lemma ReversalIsFixed()
    ensures CanonicalType("FBA_INVENTORY_FEE_REVERSAL") == "FBA_INVENTORY_FEE_REVERSAL"
  {
    hide Words, Joined, Uppered, IsInventoryFee;
    UpperedWords();
    assert Uppered("reversal") == "REVERSAL" by { UpperedReversal(); }
    WordsOfFour("fba", "inventory", "fee", "reversal");
    ReversalNames();
    ShortTypes("fba inventory fee reversal");
  }

  lemma UpperedReversal()
    ensures Uppered("reversal") == "REVERSAL" && Uppered("correction") == "CORRECTION"
  {
  }

  lemma CorrectionIsFixed()
    ensures CanonicalType("FBA_INVENTORY_FEE_CORRECTION") == "FBA_INVENTORY_FEE_CORRECTION"
  {
    hide Words, Joined, Uppered, IsInventoryFee;
    UpperedWords();
    assert Uppered("correction") == "CORRECTION" by { UpperedReversal(); }
    WordsOfFour("fba", "inventory", "fee", "correction");
    CorrectionName();
    CorrectionWords();
    ShortTypes("fba inventory fee correction");
    assert |"fba inventory fee correction"| != |"fba inventory fee reversal"|;
  }

  lemma KnownCanonicalIsFixed(t: string)
    requires KnownCanonical(t)
    ensures CanonicalType(t) == t
  {
    hide CanonicalType;
    RefundIsFixed();
    OrderIsFixed();
    TransferIsFixed();
    DebtIsFixed();
    InventoryFeeIsFixed();
    ReversalIsFixed();
    CorrectionIsFixed();
  }

  // ---- main results --------------------------------------------------------------------------

  /** Canonicalising a raw type yields a known canonical name, or a string whose own words join to it. */
  lemma CanonicalShape(raw: string)
    ensures KnownCanonical(CanonicalType(raw)) || Joined(Words(CanonicalType(raw))) == CanonicalType(raw)
  {
    hide Words, Joined, KnownType;
    var words := Words(raw);
    KnownTypeIsCanonical(words);
    if KnownType(words).None? {
      WordsAreLower(raw);
      CollapseOthersIsNeat(words);
      WordsOfJoined(CollapseOthers(words));
      assert CanonicalType(raw) == Joined(words) == Uppered(CollapseOthers(words)) by { JoinedIs(words); }
    }
  }

  lemma JoinedIs(words: string)
    ensures Joined(words) == Uppered(CollapseOthers(words))
  {
  }

  /** A stored type, being canonical already, is a fixpoint after one more canonicalisation at the latest. */
  lemma StoredTypeReachesFixpoint(raw: string)
    ensures var stored := CanonicalType(raw);
            CanonicalType(CanonicalType(stored)) == CanonicalType(stored)
            && (CanonicalType(stored) == stored || KnownCanonical(CanonicalType(stored)))
  {
    hide Words, Joined, KnownType, KnownCanonical;
    var stored := CanonicalType(raw);
    CanonicalShape(raw);
    KnownTypeIsCanonical(Words(stored));
    if KnownCanonical(stored) {
      KnownCanonicalIsFixed(stored);
    } else if KnownType(Words(stored)).Some? {
      KnownCanonicalIsFixed(CanonicalType(stored));
    }
  }

  // ---- what a type does not depend on --------------------------------------------------------

  predicate AllSpace(s: string) {
    forall i | 0 <= i < |s| :: IsSpace(s[i])
  }

  predicate AllGap(s: string) {
    forall i | 0 <= i < |s| :: IsGap(s[i])
  }

  lemma {:induction false} TrimsBefore(pre: string, s: string)
    requires AllSpace(pre)
    ensures TrimLeft(pre + s) == TrimLeft(s)
  {
    if pre == "" {
      assert pre + s == s;
    } else {
      TrimsBefore(pre[1..], s);
      assert (pre + s)[1..] == pre[1..] + s;
    }
  }

  lemma {:induction false} TrimsAfter(s: string, post: string)
    requires AllSpace(post)
    ensures TrimRight(s + post) == TrimRight(s)
    decreases |post|
  {
    if post == "" {
      assert s + post == s;
    } else {
      TrimsAfter(s, post[..|post| - 1]);
      assert (s + post)[..|s + post| - 1] == s + post[..|post| - 1];
    }
  }

  lemma {:induction false} TrimsBoth(s: string, post: string)
    requires AllSpace(post)
    ensures TrimRight(TrimLeft(s + post)) == TrimRight(TrimLeft(s))
  {
    if s != "" && IsSpace(s[0]) {
      TrimsBoth(s[1..], post);
      assert (s + post)[1..] == s[1..] + post;
    } else if s != "" {
      TrimsAfter(s, post);
    } else {
      assert s + post == post;
      TrimsBefore(post, "");
      assert post + "" == post;
    }
  }

  lemma {:induction false} RunsOfGaps(a: string, g: string, b: string)
    requires AllGap(g) && g != ""
    ensures CollapseGaps(a + g + b) == CollapseGaps(a + " " + b)
    decreases |a| + |g|
  {
    hide IsGap, IsSpace;
    Separators(' ');
    var long, short := a + g + b, a + " " + b;
    if a == "" {
      assert long == g + b && short == " " + b && short[1..] == b && long[1..] == g[1..] + b;
      if |g| > 1 {
        RunsOfGaps("", g[1..], b);
        assert "" + g[1..] + b == g[1..] + b && "" + " " + b == " " + b;
      } else {
        assert g[1..] + b == b;
      }
    } else {
      RunsOfGaps(a[1..], g, b);
      assert long[1..] == a[1..] + g + b && short[1..] == a[1..] + " " + b;
      assert |long| > 1 && |short| > 1;
      assert IsGap(long[1]) == IsGap(short[1]);
    }
  }

  lemma CaseOfSpace(c: char)
    ensures IsSpace(Upper(c)) == IsSpace(c) && Lower(Upper(c)) == Lower(c)
  {
  }

  lemma {:induction false} TrimsLeftAlike(s: string)
    ensures TrimLeft(Uppered(s)) == Uppered(TrimLeft(s))
  {
    hide IsSpace, Upper;
    if s != "" {
      CaseOfSpace(s[0]);
      TrimsLeftAlike(s[1..]);
      assert Uppered(s)[1..] == Uppered(s[1..]);
    }
  }

  lemma {:induction false} TrimsRightAlike(s: string)
    ensures TrimRight(Uppered(s)) == Uppered(TrimRight(s))
  {
    hide IsSpace, Upper;
    if s != "" {
      CaseOfSpace(s[|s| - 1]);
      TrimsRightAlike(s[..|s| - 1]);
      assert Uppered(s)[..|s| - 1] == Uppered(s[..|s| - 1]);
    }
  }

  /** Neither case, nor space around it, nor which and how many gaps are between its words change the type or
      the description that a text stands for. */
  lemma SpellingDoesNotMatter(value: string, pre: string, post: string, a: string, g: string, b: string)
    requires AllSpace(pre) && AllSpace(post) && AllGap(g) && g != ""
    requires a != "" && !IsSpace(a[0]) && b != "" && !IsSpace(b[|b| - 1])
    ensures Words(Uppered(value)) == Words(value) && Words(pre + value + post) == Words(value)
    ensures Words(a + g + b) == Words(a + " " + b)
    ensures CanonicalType(pre + Uppered(a + g + b) + post) == CanonicalType(a + " " + b)
    ensures CanonicalDescription(pre + Uppered(a + g + b) + post) == CanonicalDescription(a + " " + b)
    ensures AllSpace(" \t\n\U{B}\U{C}\r\U{A0}") && AllGap(" \t\n\U{B}\U{C}\r\U{A0}_-")
  {
    SpacesAndGaps();
    hide Words, IsSpace, IsGap;
    CaseIsIgnored(value);
    SpaceIsIgnored(pre, value, post);
    GapsAreAlike(a, g, b);
    CaseIsIgnored(a + g + b);
    SpaceIsIgnored(pre, Uppered(a + g + b), post);
  }

  lemma SpacesAndGaps()
    ensures AllSpace(" \t\n\U{B}\U{C}\r\U{A0}") && AllGap(" \t\n\U{B}\U{C}\r\U{A0}_-")
  {
  }

  lemma CaseIsIgnored(value: string)
    ensures Words(Uppered(value)) == Words(value)
  {
    hide IsSpace, IsGap, Upper, Lower;
    TrimsLeftAlike(value);
    TrimsRightAlike(TrimLeft(value));
    var t := TrimRight(TrimLeft(value));
    forall i | 0 <= i < |t| ensures Lowered(Uppered(t))[i] == Lowered(t)[i] {
      CaseOfSpace(t[i]);
    }
    assert Lowered(Uppered(t)) == Lowered(t);
  }

  lemma SpaceIsIgnored(pre: string, value: string, post: string)
    requires AllSpace(pre) && AllSpace(post)
    ensures Words(pre + value + post) == Words(value)
  {
    hide IsSpace;
    assert pre + value + post == pre + (value + post);
    TrimsBefore(pre, value + post);
    TrimsBoth(value, post);
  }

  lemma GapsAreAlike(a: string, g: string, b: string)
    requires AllGap(g) && g != "" && a != "" && !IsSpace(a[0]) && b != "" && !IsSpace(b[|b| - 1])
    ensures Words(a + g + b) == Words(a + " " + b)
  {
    hide IsSpace, IsGap, Lower;
    var long, short := a + g + b, a + " " + b;
    assert TrimRight(TrimLeft(long)) == long && TrimRight(TrimLeft(short)) == short;
    assert Lowered(long) == Lowered(a) + Lowered(g) + Lowered(b);
    assert Lowered(short) == Lowered(a) + " " + Lowered(b) by { assert Lower(' ') == ' ' by { LowerOfSpace(); } }
    forall i | 0 <= i < |g| ensures IsGap(Lower(g[i])) { LowerOfGap(g[i]); }
    RunsOfGaps(Lowered(a), Lowered(g), Lowered(b));
  }

  lemma LowerOfSpace()
    ensures Lower(' ') == ' '
  {
  }

  lemma LowerOfGap(c: char)
    requires IsGap(c)
    ensures IsGap(Lower(c))
  {
  }

  // ---- fee cells -----------------------------------------------------------------------------

  datatype Column = SellingFees | FbaFees | OtherTransactionFees | Other

  datatype Category = PlatformFee | FbaFulfillmentFee | AdvertisingFee | FbaStorageFee | OtherDeduction
                    | ExcludedTransferDebt

  function ClassifyFeeCell(column: Column, txType: string, description: string): Category {
    if column.SellingFees? then PlatformFee
    else if column.FbaFees? then FbaFulfillmentFee
    else if column.OtherTransactionFees? && CanonicalDescription(description) == "COST_OF_ADVERTISING" then
      AdvertisingFee
    else if column.Other? && CanonicalType(txType) == "FBA_INVENTORY_FEE" then FbaStorageFee
    else if column.Other? && (CanonicalType(txType) == "TRANSFER" || CanonicalType(txType) == "DEBT") then
      ExcludedTransferDebt
    else OtherDeduction
  }

  /** A transaction fact as stored, with the amounts of its four fee columns. */
  datatype FeeFact = FeeFact(txType: string, description: string, selling: int, fba: int, otherFees: int, other: int) {
    function Amount(column: Column): int {
      match column
      case SellingFees => selling
      case FbaFees => fba
      case OtherTransactionFees => otherFees
      case Other => other
    }
  }

  const COLUMNS: seq<Column> := [SellingFees, FbaFees, OtherTransactionFees, Other]

  datatype FeeRow = FeeRow(column: Column, category: Category, amount: int)

  /** The rows of classifyTransactionFees for some columns. */
  function AuditRows(f: FeeFact, columns: seq<Column>): seq<FeeRow> {
    if columns == [] then []
    else
      var rest := AuditRows(f, columns[1..]);
      if f.Amount(columns[0]) == 0 then rest
      else [FeeRow(columns[0], ClassifyFeeCell(columns[0], f.txType, f.description), f.Amount(columns[0]))] + rest
  }

  /** The fee rows of transactionResults, which classifies the type it has canonicalised itself and makes no
      result of a zero. */
  function ResultRows(f: FeeFact, columns: seq<Column>): seq<FeeRow> {
    if columns == [] then []
    else
      var rest := ResultRows(f, columns[1..]);
      var category := ClassifyFeeCell(columns[0], CanonicalType(f.txType), f.description);
      if category.ExcludedTransferDebt? || f.Amount(columns[0]) == 0 then rest
      else [FeeRow(columns[0], category, f.Amount(columns[0]))] + rest
  }

  function Kept(rows: seq<FeeRow>): seq<FeeRow> {
    if rows == [] then []
    else if rows[0].category.ExcludedTransferDebt? then Kept(rows[1..])
    else [rows[0]] + Kept(rows[1..])
  }

  /** What an audit row must say about its cell. */
  predicate Audits(row: FeeRow, f: FeeFact) {
    && row.amount == f.Amount(row.column) && row.amount != 0
    && match row.column
       case SellingFees => row.category == PlatformFee
       case FbaFees => row.category == FbaFulfillmentFee
       case OtherTransactionFees =>
         row.category == (if CanonicalDescription(f.description) == "COST_OF_ADVERTISING" then AdvertisingFee
                          else OtherDeduction)
       case Other =>
         row.category == (if CanonicalType(f.txType) == "FBA_INVENTORY_FEE" then FbaStorageFee
                          else if CanonicalType(f.txType) in {"TRANSFER", "DEBT"} then ExcludedTransferDebt
                          else OtherDeduction)
  }

  predicate HasRow(rows: seq<FeeRow>, column: Column) {
    exists i | 0 <= i < |rows| :: rows[i].column == column
  }

  /** The audit has one row for each fee that is not zero, excluded ones included, with its amount and category. */
  lemma {:induction false} AuditExactly(f: FeeFact, columns: seq<Column>)
    requires forall i, j | 0 <= i < j < |columns| :: columns[i] != columns[j]
    ensures var rows := AuditRows(f, columns);
            && (forall i | 0 <= i < |rows| :: Audits(rows[i], f))
            && (forall i, j | 0 <= i < j < |rows| :: rows[i].column != rows[j].column)
            && (forall c :: HasRow(rows, c) <==> c in columns && f.Amount(c) != 0)
  {
    hide CanonicalType, CanonicalDescription;
    if columns != [] {
      var head, rest := columns[0], AuditRows(f, columns[1..]);
      AuditExactly(f, columns[1..]);
      assert columns == [head] + columns[1..];
      var rows := AuditRows(f, columns);
      if f.Amount(head) != 0 {
        assert forall i | 0 < i < |rows| :: rows[i] == rest[i - 1];
        assert forall i | 0 <= i < |rest| :: rest[i] == rows[i + 1] && HasRow(rest, rest[i].column);
        assert rows[0].column == head && Audits(rows[0], f);
      }
    }
  }

  ghost predicate SameClass(txType: string) {
    forall column: Column, description: string ::
      ClassifyFeeCell(column, CanonicalType(txType), description) == ClassifyFeeCell(column, txType, description)
  }

  lemma {:induction false} SameClassSameRows(f: FeeFact, columns: seq<Column>)
    requires SameClass(f.txType)
    ensures ResultRows(f, columns) == Kept(AuditRows(f, columns))
  {
    hide ClassifyFeeCell, CanonicalType;
    if columns != [] {
      SameClassSameRows(f, columns[1..]);
      var rest := AuditRows(f, columns[1..]);
      var row := FeeRow(columns[0], ClassifyFeeCell(columns[0], f.txType, f.description), f.Amount(columns[0]));
      assert ([row] + rest)[1..] == rest;
    }
  }

  /** The two code paths agree on every stored fact: the calculation emits exactly the audited fee cells that
      are not excluded, with the same category and amount, in the same order. */
  lemma PathsAgree(f: FeeFact, raw: string)
    requires f.txType == CanonicalType(raw)
    ensures ResultRows(f, COLUMNS) == Kept(AuditRows(f, COLUMNS))
  {
    hide CanonicalType;
    StoredTypeReachesFixpoint(raw);
    SameClassSameRows(f, COLUMNS);
  }

  predicate Special(txType: string) {
    txType == "FBA_INVENTORY_FEE" || txType == "TRANSFER" || txType == "DEBT"
  }

  /** For any stored type they agree on all amounts exactly when one canonicalisation already finds the
      inventory fee, transfer or debt that two would find. */
  lemma SameClassExactly(txType: string)
    ensures SameClass(txType) <==> (Special(CanonicalType(CanonicalType(txType))) ==> Special(CanonicalType(txType)))
  {
    hide CanonicalType;
    var once := CanonicalType(txType);
    if Special(once) {
      SpecialIsFixed(once);
    }
    assert ClassifyFeeCell(Other, once, "") == ClassifyFeeCell(Other, txType, "")
           <==> (Special(CanonicalType(once)) ==> Special(once));
    if Special(CanonicalType(once)) ==> Special(once) {
      forall column: Column, description: string
        ensures ClassifyFeeCell(column, once, description) == ClassifyFeeCell(column, txType, description) { }
    }
  }

  lemma SpecialIsFixed(t: string)
    requires Special(t)
    ensures CanonicalType(t) == t
  {
    hide CanonicalType;
    KnownCanonicalIsFixed(t);
  }

  // ---- what punctuation hides ----------------------------------------------------------------

  predicate SpecialWords(words: string) {
    KnownType(words).Some? && Special(KnownType(words).value)
  }

  /** Each run of characters that are neither letters nor digits becomes one space. */
  function Unpunctuated(words: string): string {
    Marked(CollapseOthers(words), '_', ' ')
  }

  lemma {:induction false} PlainOnlyFromItself(s: string)
    requires Plain(CollapseOthers(s))
    ensures CollapseOthers(s) == s
  {
    if s != "" {
      if IsAlnum(s[0]) || (|s| > 1 && !IsAlnum(s[1])) {
        assert CollapseOthers(s) == (if IsAlnum(s[0]) then [s[0]] else "") + CollapseOthers(s[1..]);
        PlainTail(if IsAlnum(s[0]) then [s[0]] else "", CollapseOthers(s[1..]));
        PlainOnlyFromItself(s[1..]);
      }
    }
  }

  lemma PlainTail(a: string, b: string)
    requires Plain(a + b)
    ensures Plain(b)
  {
    forall i | 0 <= i < |b| ensures 'a' <= b[i] <= 'z' {
      assert (a + b)[|a| + i] == b[i];
    }
  }

  lemma {:induction false} PlainMarks(s: string)
    requires Plain(s)
    ensures Marked(s, ' ', '_') == s
  {
    if s != "" {
      PlainMarks(s[1..]);
    }
  }

  lemma {:induction false} MarkedAt(s: string, from: char, to: char, i: nat)
    requires i < |s|
    ensures Marked(s, from, to)[i] == if s[i] == from then to else s[i]
  {
    if i > 0 {
      MarkedAt(s[1..], from, to, i - 1);
    }
  }

  lemma IncludedBeforeMarking(s: string, token: string)
    requires Plain(token) && Includes(Marked(s, '_', ' '), token)
    ensures Includes(s, token)
  {
    var v := Marked(s, '_', ' ');
    var i :| 0 <= i <= |v| && StartsWith(v[i..], token);
    forall k | 0 <= k < |token| ensures s[i..][k] == token[k] {
      assert v[i..][k] == v[i..][..|token|][k] == token[k];
      MarkedAt(s, '_', ' ', i + k);
    }
    assert s[i..][..|token|] == token;
    assert StartsWith(s[i..], token);
  }

  /** Nothing is put in front of letters that the result starts with. */
  lemma {:induction false} StartSurvives(s: string, token: string)
    requires Plain(token) && StartsWith(CollapseOthers(s), token)
    ensures StartsWith(s, token)
  {
    if token != "" {
      FirstSurvives(s);
      assert CollapseOthers(s)[0] == CollapseOthers(s)[..|token|][0] == token[0];
      assert CollapseOthers(s)[1..] == CollapseOthers(s[1..]);
      assert CollapseOthers(s[1..])[..|token| - 1] == CollapseOthers(s)[..|token|][1..] == token[1..];
      StartSurvives(s[1..], token[1..]);
      assert s[..|token|] == [s[0]] + s[1..][..|token| - 1];
    }
  }

  lemma {:induction false} FirstSurvives(s: string)
    ensures s == "" <==> CollapseOthers(s) == ""
    ensures s != "" && CollapseOthers(s)[0] != '_' ==> IsAlnum(s[0]) && CollapseOthers(s)[0] == s[0]
  {
    hide IsAlnum;
    if s != "" {
      FirstSurvives(s[1..]);
      Separators(s[0]);
      if |s| > 1 { Separators(s[1]); }
    }
  }

  lemma IncludedInTail(s: string, token: string)
    requires s != "" && Includes(s[1..], token)
    ensures Includes(s, token)
  {
    var i :| 0 <= i <= |s| - 1 && StartsWith(s[1..][i..], token);
    assert s[1..][i..] == s[i + 1..];
  }

  lemma {:induction false} IncludedBeforeCollapsing(s: string, token: string)
    requires Plain(token) && Includes(CollapseOthers(s), token)
    ensures Includes(s, token)
  {
    hide IsAlnum, StartsWith;
    var c := CollapseOthers(s);
    var i :| 0 <= i <= |c| && StartsWith(c[i..], token);
    if i == 0 {
      assert c[0..] == c && s[0..] == s;
      StartSurvives(s, token);
      assert StartsWith(s[0..], token);
    } else {
      var d := CollapseOthers(s[1..]);
      if c == d {
        assert StartsWith(d[i..], token);
      } else {
        assert c[i..] == d[i - 1..];
        assert StartsWith(d[i - 1..], token);
      }
      IncludedBeforeCollapsing(s[1..], token);
      IncludedInTail(s, token);
    }
  }

  /** Words that already join to a plain name are that name. */
  lemma JoinsToPlain(words: string, name: string)
    requires NoUpper(words) && Plain(name) && Joined(words) == Uppered(name)
    ensures words == name
  {
    hide Words, Neat, Plain, IsUpper, IsAlnum, Upper;
    var c := CollapseOthers(words);
    CollapseOthersIsNeat(words);
    WordsOfJoined(c);
    MarkedBack(c);
    WordsOfPlain(name);
    PlainMarks(name);
    PlainOnlyFromItself(words);
  }

  lemma JoinsToInventoryFee(words: string)
    requires NoUpper(words) && Joined(words) == "FBA_INVENTORY_FEE"
    ensures IsInventoryFee(words)
  {
    hide Words, Neat, NoUpper, Uppered, Joined, Includes, Marked, CollapseOthers;
    var c := CollapseOthers(words);
    JoinedIs(words);
    CollapseOthersIsNeat(words);
    WordsOfJoined(c);
    UpperedWords();
    WordsOfThree("fba", "inventory", "fee");
    FeeNames();
    FeeTokens();
    IncludedBeforeMarking(c, "fba");
    IncludedBeforeCollapsing(words, "fba");
    IncludedBeforeMarking(c, "inventory");
    IncludedBeforeCollapsing(words, "inventory");
    assert Includes(words, AMAZON_TOKENS[0]) && Includes(words, INVENTORY_TOKENS[0]);
  }

  lemma FeeTokens()
    ensures Includes("fba inventory fee", "fba") && Includes("fba inventory fee", "inventory")
  {
    var w := "fba inventory fee";
    assert StartsWith(w[0..], "fba");
    assert StartsWith(w[4..], "inventory");
  }

  /** Words the policy does not know never join to the name of a special type. */
  lemma UnknownIsNotSpecial(words: string)
    requires NoUpper(words) && KnownType(words).None?
    ensures !Special(Joined(words))
  {
    hide Joined, NoUpper, IsInventoryFee;
    if Joined(words) == "FBA_INVENTORY_FEE" {
      JoinsToInventoryFee(words);
    }
    assert Uppered("debt") == "DEBT" && Uppered("transfer") == "TRANSFER";
    assert DEBT_TYPES[0] == "debt" && TRANSFER_TYPES[0] == "transfer";
    if Joined(words) == "DEBT" { JoinsToPlain(words, "debt"); }
    if Joined(words) == "TRANSFER" { JoinsToPlain(words, "transfer"); }
  }

  /** A type is a refund, an order, an inventory fee, a transfer or a debt exactly when its words are listed as
      one, in this order of precedence: no other text is canonicalised to these names. */
  lemma CanonicalTypeExactly(value: string)
    ensures var w := Words(value);
            && (CanonicalType(value) == "REFUND" <==> w in REFUND_TYPES)
            && (CanonicalType(value) == "ORDER" <==> w !in REFUND_TYPES && w in ORDER_TYPES)
            && (CanonicalType(value) == "FBA_INVENTORY_FEE" <==>
                  w !in REFUND_TYPES && w !in ORDER_TYPES && IsInventoryFee(w)
                  && w != "fba inventory fee reversal" && w != "fba inventory fee correction")
            && (CanonicalType(value) == "TRANSFER" <==>
                  w !in REFUND_TYPES && w !in ORDER_TYPES && !IsInventoryFee(w) && w in TRANSFER_TYPES)
            && (CanonicalType(value) == "DEBT" <==>
                  w !in REFUND_TYPES && w !in ORDER_TYPES && !IsInventoryFee(w) && w !in TRANSFER_TYPES
                  && w in DEBT_TYPES)
  {
    hide Words, Joined, IsInventoryFee, NoUpper;
    var w := Words(value);
    WordsAreLower(value);
    NamesDiffer();
    ExactTypesAreFees();
    if KnownType(w).None? {
      UnknownIsNotListed(w);
    }
  }

  lemma NamesDiffer()
    ensures |"REFUND"| == 6 && |"ORDER"| == 5 && |"FBA_INVENTORY_FEE"| == 17 && |"TRANSFER"| == 8 && |"DEBT"| == 4
    ensures |"FBA_INVENTORY_FEE_REVERSAL"| == 26 && |"FBA_INVENTORY_FEE_CORRECTION"| == 28
  {
  }

  lemma ExactTypesAreFees()
    ensures IsInventoryFee("fba inventory fee reversal") && IsInventoryFee("fba inventory fee correction")
  {
    var r, c := "fba inventory fee reversal", "fba inventory fee correction";
    assert StartsWith(r[0..], AMAZON_TOKENS[0]) && StartsWith(r[4..], INVENTORY_TOKENS[0]);
    assert StartsWith(c[0..], AMAZON_TOKENS[0]) && StartsWith(c[4..], INVENTORY_TOKENS[0]);
  }

  lemma UnknownIsNotListed(words: string)
    requires NoUpper(words) && KnownType(words).None?
    ensures !Special(Joined(words)) && Joined(words) != "REFUND" && Joined(words) != "ORDER"
  {
    hide Joined, NoUpper, IsInventoryFee;
    UnknownIsNotSpecial(words);
    assert Uppered("refund") == "REFUND" && Uppered("order") == "ORDER";
    assert REFUND_TYPES[0] == "refund" && ORDER_TYPES[0] == "order";
    if Joined(words) == "REFUND" { JoinsToPlain(words, "refund"); }
    if Joined(words) == "ORDER" { JoinsToPlain(words, "order"); }
  }

  /** A description is the cost of advertising exactly when its words are listed as such, or read so with their
      punctuation replaced by spaces. */
  lemma CanonicalDescriptionExactly(value: string)
    ensures CanonicalDescription(value) == "COST_OF_ADVERTISING" <==>
              Words(value) in ADVERTISING || Unpunctuated(Words(value)) == "cost of advertising"
  {
    hide Words, Neat, NoUpper, Uppered, Joined, Marked, CollapseOthers;
    var w := Words(value);
    var c, name := CollapseOthers(w), "cost_of_advertising";
    WordsAreLower(value);
    JoinedIs(w);
    CollapseOthersIsNeat(w);
    WordsOfJoined(c);
    MarkedBack(c);
    AdvertisingName();
    MarkedBack(name);
    WordsOfJoined(name);
  }

  lemma AdvertisingName()
    ensures Neat("cost_of_advertising", '_') && Uppered("cost_of_advertising") == "COST_OF_ADVERTISING"
    ensures Marked("cost_of_advertising", '_', ' ') == "cost of advertising"
  {
    hide Words, CollapseOthers, Neat, Marked;
    var a, b, c := "cost", "of", "advertising";
    assert a + "_" + (b + "_" + c) == "cost_of_advertising" && a + " " + (b + " " + c) == "cost of advertising";
    assert Uppered(a) == "COST" && Uppered(b) == "OF" && Uppered(c) == "ADVERTISING";
    assert "COST" + "_" + ("OF" + "_" + "ADVERTISING") == "COST_OF_ADVERTISING";
    PlainIsNeat(c);
    PlainJoins(b, c);
    PlainJoins(a, b + "_" + c);
    UpperedJoins(b, c);
    UpperedJoins(a, b + "_" + c);
    WordsOfThree(a, b, c);
    WordsOfJoined("cost_of_advertising");
  }

  /** Where a token occurs, anything may stand before and after it. */
  lemma IncludesExactly(s: string, token: string)
    ensures Includes(s, token) <==> exists before, after :: s == before + token + after
  {
    if before, after :| s == before + token + after {
      assert s[|before|..] == token + after;
      assert StartsWith(s[|before|..], token);
    }
    if Includes(s, token) {
      var i :| 0 <= i <= |s| && StartsWith(s[i..], token);
      assert s == s[..i] + token + s[i + |token|..];
    }
  }

  /** For a type that was stored without canonicalisation the two paths agree on all amounts if and only if
      punctuation hides nothing: its words are known as they stand, or are no inventory fee, transfer or debt
      with their punctuation replaced by spaces either. */
  lemma LegacyTypesAgreeExactly(txType: string)
    ensures SameClass(txType) <==> KnownType(Words(txType)).Some? || !SpecialWords(Unpunctuated(Words(txType)))
  {
    hide Words, Joined, KnownType, SameClass, Special, Unpunctuated, KnownCanonical;
    var words := Words(txType);
    SameClassExactly(txType);
    KnownTypeIsCanonical(words);
    if KnownType(words).Some? {
      KnownCanonicalIsFixed(CanonicalType(txType));
    } else {
      WordsAreLower(txType);
      UnknownIsNotSpecial(words);
      WordsOfCanonical(words);
    }
  }

  /** The words of a joined string. */
  lemma WordsOfCanonical(words: string)
    requires NoUpper(words)
    ensures Words(Joined(words)) == Unpunctuated(words) && Joined(Words(Joined(words))) == Joined(words)
  {
    hide Words;
    CollapseOthersIsNeat(words);
    WordsOfJoined(CollapseOthers(words));
  }

  /** Such a type exists: punctuation hides a debt from the audit, while the calculation excludes it. */
  lemma PunctuatedDebtDisagrees()
    ensures !SameClass("saldo.negativo")
  {
    hide CanonicalType, Special;
    PunctuatedDebt();
    SameClassExactly("saldo.negativo");
    assert Special("DEBT") && !Special("SALDO_NEGATIVO") by { SpecialNames(); }
  }

  lemma SpecialNames()
    ensures Special("DEBT") && !Special("SALDO_NEGATIVO")
  {
  }

  lemma PunctuatedDebt()
    ensures CanonicalType("saldo.negativo") == "SALDO_NEGATIVO" && CanonicalType("SALDO_NEGATIVO") == "DEBT"
  {
    hide Words, Joined, KnownType;
    PunctuatedWords();
    PunctuatedType();
    DebtWords();
  }

  lemma {:induction false} CompactGaps(s: string)
    requires forall i | 0 <= i < |s| :: !IsGap(s[i])
    ensures CollapseGaps(s) == s
  {
    if s != "" {
      CompactGaps(s[1..]);
    }
  }

  /** Words without gaps or capitals are left alone. */
  lemma CompactWords(s: string)
    requires NoUpper(s) && forall i | 0 <= i < |s| :: !IsGap(s[i])
    ensures Words(s) == s
  {
    hide IsUpper, IsAlnum, Upper, Lower;
    CompactGaps(s);
    assert Lowered(s) == s by { LoweredIsSame(s); }
    assert TrimRight(TrimLeft(s)) == s;
  }

  lemma LoweredIsSame(s: string)
    requires NoUpper(s)
    ensures Lowered(s) == s
  {
  }

  lemma DotAndLetters(c: char)
    ensures !IsAlnum('.') && ('a' <= c <= 'z' ==> IsAlnum(c))
  {
  }

  lemma {:induction false} OthersDot(a: string, b: string)
    requires Plain(a) && Plain(b) && b != ""
    ensures CollapseOthers(a + "." + b) == a + "_" + b
  {
    hide IsAlnum;
    var all := a + "." + b;
    if a == "" {
      assert all == "." + b && all[0] == '.' && all[1..] == b && all[1] == b[0];
      DotAndLetters(b[0]);
      PlainOthers(b);
    } else {
      DotAndLetters(a[0]);
      OthersDot(a[1..], b);
      assert all[0] == a[0] && all[1..] == a[1..] + "." + b;
      assert [a[0]] + (a[1..] + "_" + b) == a + "_" + b;
    }
  }

  lemma {:induction false} PlainOthers(s: string)
    requires Plain(s)
    ensures CollapseOthers(s) == s
  {
    if s != "" {
      PlainOthers(s[1..]);
    }
  }

  lemma DebtNames()
    ensures "saldo" + "." + "negativo" == "saldo.negativo" && "saldo" + " " + "negativo" == "saldo negativo"
    ensures Uppered("saldo") + "_" + Uppered("negativo") == "SALDO_NEGATIVO"
  {
    assert Uppered("saldo") == "SALDO" && Uppered("negativo") == "NEGATIVO";
  }

  lemma PunctuatedWords()
    ensures Words("saldo.negativo") == "saldo.negativo" && Joined("saldo.negativo") == "SALDO_NEGATIVO"
    ensures Words("SALDO_NEGATIVO") == "saldo negativo"
  {
    hide Words, Uppered, Joined, CollapseOthers, Marked, Neat;
    DebtNames();
    NegativeIsCompact();
    JoinedDot("saldo", "negativo");
    WordsOfTwo("saldo", "negativo");
  }

  lemma NegativeIsCompact()
    ensures Words("saldo.negativo") == "saldo.negativo"
  {
    hide Words;
    CompactWords("saldo.negativo");
  }

  lemma JoinedDot(a: string, b: string)
    requires Plain(a) && Plain(b) && b != ""
    ensures Joined(a + "." + b) == Uppered(a) + "_" + Uppered(b)
  {
    OthersDot(a, b);
    UpperedJoins(a, b);
  }

  lemma WordsOfTwo(a: string, b: string)
    requires Plain(a) && Plain(b) && a != "" && b != ""
    ensures Words(Uppered(a) + "_" + Uppered(b)) == a + " " + b
  {
    PlainIsNeat(b);
    PlainJoins(a, b);
    UpperedJoins(a, b);
    WordsOfJoined(a + "_" + b);
  }

  lemma PunctuatedType()
    ensures KnownType("saldo.negativo").None?
  {
    hide IsInventoryFee;
    var w := "saldo.negativo";
    ShortTypes(w);
    NoAmazon(w);
    NotTransfer(w);
    assert |w| != |"fba inventory fee reversal"| && |w| != |"fba inventory fee correction"|;
    assert w !in DEBT_TYPES by {
      forall i | 0 <= i < |DEBT_TYPES| ensures DEBT_TYPES[i] != w {
        assert |DEBT_TYPES[i]| == 14 ==> DEBT_TYPES[i][5] != '.';
      }
    }
  }

  lemma NotTransfer(w: string)
    requires |w| == 14 && w[0] == 's'
    ensures w !in TRANSFER_TYPES
  {
    assert forall i | 0 <= i < |TRANSFER_TYPES| :: TRANSFER_TYPES[i][0] != 's';
  }

  lemma DebtWords()
    ensures KnownType("saldo negativo") == Some("DEBT")
  {
    hide IsInventoryFee;
    var w := "saldo negativo";
    ShortTypes(w);
    NoAmazon(w);
    NotTransfer(w);
    assert |w| != |"fba inventory fee reversal"| && |w| != |"fba inventory fee correction"|;
    assert DEBT_TYPES[9] == w;
  }
}
