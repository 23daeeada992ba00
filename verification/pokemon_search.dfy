/**
 * The Pokédex screen's search controller. The screen keeps the typed name,
 * the Pokémon on display, a loading flag and an error message in component
 * state; `searchPokemon` updates them before and after one awaited request.
 * The request itself is not performed: `Search` returns the URL it would
 * fetch, and `Settle` receives how that fetch ended.
 */
module PokemonSearch {
  import opened Network
  import opened JsString

  datatype Stat = Stat(baseStat: int, name: string)

  /** The fields of a PokéAPI `pokemon` record that the screen displays. */
  datatype Pokemon = Pokemon(
    id: int,
    name: string,
    sprite: string,
    artwork: string,
    baseExperience: int,
    abilities: seq<string>,
    cry: string,
    types: seq<string>,
    height: int,
    weight: int,
    stats: seq<Stat>)

  const PokeApiPrefix: string := "https://pokeapi.co/api/v2/pokemon/"
  const EmptyNameMessage: string := "Por favor ingresa el nombre de un Pokémon"
  const NotFoundMessage: string := "Pokémon no encontrado. Verifica el nombre e intenta de nuevo."

  /** `!pokemonName.trim()`: nothing but whitespace was typed. */
  function IsBlank(name: string): (blank: bool)
    ensures blank <==> SpaceEnd(name, 0) == |name|
  {
    Trim(name) == []
  }

  /** The URL fetched for a name: the fixed prefix followed by the name
      trimmed and lower-cased, with no further encoding. The source lowers
      before it trims; `SearchUrlSegment` shows the order does not matter. */
  function SearchUrl(name: string): (url: string)
    ensures |url| >= |PokeApiPrefix| && url[..|PokeApiPrefix|] == PokeApiPrefix
  {
    PokeApiPrefix + Lower(Trim(name))
  }

  /** The path segment of the URL is `name.toLowerCase().trim()`: no
      upper-case ASCII letter and no whitespace at its ends. It is empty
      exactly when the name is blank, which `Search` never requests. */
  lemma SearchUrlSegment(name: string)
    ensures var segment := SearchUrl(name)[|PokeApiPrefix|..];
      && segment == Trim(Lower(name))
      && IsTrimmed(segment)
      && (forall i :: 0 <= i < |segment| ==> !IsAsciiUpper(segment[i]))
      && (segment == [] <==> IsBlank(name))
  {
    LowerTrimCommute(name);
    assert SearchUrl(name)[|PokeApiPrefix|..] == Lower(Trim(name));
  }

  class PokedexScreen {
    var pokemonName: string
    var pokemon: Option<Pokemon>
    var loading: bool
    var error: Option<string>

    /** While a search is loading no Pokémon is on display: the previous
        result is cleared before the new one arrives. */
    ghost predicate Valid()
      reads this
    {
      loading ==> pokemon == None
    }

    /** The state the screen is mounted with. */
    constructor ()
      ensures Valid()
      ensures pokemonName == "" && pokemon == None && !loading && error == None
    {
      pokemonName := "";
      pokemon := None;
      loading := false;
      error := None;
    }

    /** `onChangeText` of the input, or a tap on a suggestion chip. */
    method SetName(name: string)
      requires Valid()
      modifies this`pokemonName
      ensures Valid()
      ensures pokemonName == name
    {
      pokemonName := name;
    }

    /** The synchronous part of `searchPokemon`, up to the awaited fetch. A
        blank name only sets the error and requests nothing; otherwise the
        screen starts loading, clears the error and the previous Pokémon,
        and requests `SearchUrl(pokemonName)`. */
    method Search() returns (request: Option<string>)
      requires Valid()
      modifies this`loading, this`error, this`pokemon
      ensures Valid()
      ensures request == None <==> IsBlank(pokemonName)
      ensures IsBlank(pokemonName) ==>
        error == Some(EmptyNameMessage) && loading == old(loading) && pokemon == old(pokemon)
      ensures !IsBlank(pokemonName) ==>
        request == Some(SearchUrl(pokemonName)) && loading && error == None && pokemon == None
    {
      if IsBlank(pokemonName) {
        error := Some(EmptyNameMessage);
        request := None;
        return;
      }
      loading := true;
      error := None;
      pokemon := None;
      request := Some(SearchUrl(pokemonName));
    }

    /** The part of `searchPokemon` after the fetch settles. A payload is
        stored; any failure sets the one not-found message; either way the
        `finally` block ends the loading. Nothing checks that this is the
        answer to the latest search. */
    method Settle(outcome: Outcome<Pokemon>)
      requires Valid()
      modifies this`loading, this`error, this`pokemon
      ensures Valid() && !loading
      ensures outcome.Ok? ==> pokemon == Some(outcome.payload) && error == old(error)
      ensures outcome.Fail? ==> pokemon == old(pokemon) && error == Some(NotFoundMessage)
    {
      match outcome {
        case Ok(data) =>
          pokemon := Some(data);
        case Fail =>
          error := Some(NotFoundMessage);
      }
      loading := false;
    }
  }

  /** One search on a freshly mounted screen: type `name`, press the search
      button, and, when a request was made, let it settle with `outcome`.
      Returns what is requested and what the screen then shows. */
  method SearchOnce(name: string, outcome: Outcome<Pokemon>)
    returns (request: Option<string>, shown: Option<Pokemon>, message: Option<string>, spinning: bool)
    ensures IsBlank(name) ==>
      request == None && shown == None && message == Some(EmptyNameMessage) && !spinning
    ensures !IsBlank(name) ==> request == Some(SearchUrl(name)) && !spinning
    ensures !IsBlank(name) && outcome.Ok? ==> shown == Some(outcome.payload) && message == None
    ensures !IsBlank(name) && outcome.Fail? ==> shown == None && message == Some(NotFoundMessage)
  {
    var screen := new PokedexScreen();
    screen.SetName(name);
    request := screen.Search();
    if request.Some? {
      screen.Settle(outcome);
    }
    shown, message, spinning := screen.pokemon, screen.error, screen.loading;
  }

  /** A blank search after a successful one keeps the Pokémon on display
      next to the empty-name message. */
  method BlankSearchKeepsResult(found: Pokemon, name: string, blank: string)
    returns (shown: Option<Pokemon>, message: Option<string>)
    requires !IsBlank(name) && IsBlank(blank)
    ensures shown == Some(found) && message == Some(EmptyNameMessage)
  {
    var screen := new PokedexScreen();
    screen.SetName(name);
    var first := screen.Search();
    screen.Settle(Ok(found));
    screen.SetName(blank);
    var second := screen.Search();
    shown, message := screen.pokemon, screen.error;
  }
}
