/** The movie records of EnumTableViewTutorial/ViewController.swift.
    Each record in the source is a `[String: String]` dictionary; only the
    three keys the program reads are modelled. */
module Movies {

  datatype Movie = Movie(title: string, cast: string, genre: string)

  /** The literal table the screen shows (`MovieData`), in source order. */
  const MovieData: seq<Movie> := [
    Movie("Jason Bourne", "Matt Damon, Alicia Vikander, Julia Stiles", "action"),
    Movie("Suicide Squad", "Margot Robbie, Jared Leto, Will Smith", "action"),
    Movie("Star Trek Beyond", "Chris Pine, Zachary Quinto, Zoe Saldana", "action"),
    Movie("Deadpool", "Ryan Reynolds, Morena Baccarin, Gina Carano", "action"),
    Movie("London Has Fallen", "Gerard Butler, Aaron Eckhart, Morgan Freeman, Angela Bassett", "action"),
    Movie("Ghostbusters", "Kate McKinnon, Leslie Jones, Melissa McCarthy, Kristen Wiig", "comedy"),
    Movie("Central Intelligence", "Dwayne Johnson, Kevin Hart", "comedy"),
    Movie("Bad Moms", "Mila Kunis, Kristen Bell, Kathryn Hahn, Christina Applegate", "comedy"),
    Movie("Keanu", "Jordan Peele, Keegan-Michael Key", "comedy"),
    Movie("Neighbors 2: Sorority Rising", "Seth Rogen, Rose Byrne", "comedy"),
    Movie("The Shallows", "Blake Lively", "drama"),
    Movie("The Finest Hours", "Chris Pine, Casey Affleck, Holliday Grainger", "drama"),
    Movie("10 Cloverfield Lane", "Mary Elizabeth Winstead, John Goodman, John Gallagher Jr.", "drama"),
    Movie("A Hologram for the King", "Tom Hanks, Sarita Choudhury", "drama"),
    Movie("Miracles from Heaven", "Jennifer Garner, Kylie Rogers, Martin Henderson", "drama")
  ]
}
