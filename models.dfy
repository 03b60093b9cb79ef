/** The records the pipeline reads and writes (Models/BoardGameBasic.cs,
    Models/BoardGame.cs, Models/PlayerCountRecommendation.cs).

    The identifier is the `int Id` both model classes declare; the CSV reader
    fills it from the first field. Nullable members are `Option`s, lists are
    sequences, doubles are the opaque `Double` literal. */
module Models {
  import opened Wrappers
  import opened Numerals

  /** One vote tally of the `suggested_numplayers` poll. The counts start
      at 0 and hold 32-bit values read from the XML. */
  datatype PlayerCountRecommendation = PlayerCountRecommendation(
    numPlayers: int,
    best: int,
    recommended: int,
    notRecommended: int)

  /** A row of the ranking snapshot. */
  datatype BoardGameBasic = BoardGameBasic(
    id: int,
    name: string,
    yearPublished: int,
    rank: Option<int>,
    bayesAverage: Option<Double>)

  /** A game with the details the XML API reports. */
  datatype BoardGameDetailed = BoardGameDetailed(
    id: int,
    name: string,
    yearPublished: int,
    rank: Option<int>,
    bayesAverage: Option<Double>,
    description: Option<string>,
    minPlayers: Option<int>,
    maxPlayers: Option<int>,
    minPlayTime: Option<int>,
    maxPlayTime: Option<int>,
    playingTime: Option<int>,
    minAge: Option<int>,
    usersRated: Option<int>,
    average: Option<Double>,
    standardDeviation: Option<Double>,
    owned: Option<int>,
    trading: Option<int>,
    wanting: Option<int>,
    wishing: Option<int>,
    numComments: Option<int>,
    numWeights: Option<int>,
    averageWeight: Option<Double>,
    categories: seq<string>,
    mechanics: seq<string>,
    designers: seq<string>,
    artists: seq<string>,
    publishers: seq<string>,
    bestPlayerCount: Option<int>,
    recommendedPlayerCount: Option<int>,
    playerCountRecommendations: seq<PlayerCountRecommendation>)

  /** `new BoardGameDetailed { Id = id }`: every other member at its
      initializer or default value. */
  function NewDetailed(id: int): (g: BoardGameDetailed)
    ensures g.id == id && g.name == "" && g.yearPublished == 0
    ensures g.rank.None? && g.bayesAverage.None? && g.description.None?
    ensures g.minPlayers.None? && g.maxPlayers.None? && g.minPlayTime.None? && g.maxPlayTime.None?
    ensures g.playingTime.None? && g.minAge.None?
    ensures g.usersRated.None? && g.average.None? && g.standardDeviation.None?
    ensures g.owned.None? && g.trading.None? && g.wanting.None? && g.wishing.None?
    ensures g.numComments.None? && g.numWeights.None? && g.averageWeight.None?
    ensures g.categories == [] && g.mechanics == [] && g.designers == [] && g.artists == [] && g.publishers == []
    ensures g.bestPlayerCount.None? && g.recommendedPlayerCount.None? && g.playerCountRecommendations == []
  {
    BoardGameDetailed(id, "", 0, None, None, None, None, None, None, None, None, None,
                      None, None, None, None, None, None, None, None, None, None,
                      [], [], [], [], [], None, None, [])
  }
}
