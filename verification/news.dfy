/** The article record the extraction produces. */
module NewsRecord {
  import opened Options

  /** A `java.util.Date`: an instant in milliseconds since the epoch. */
  datatype Date = Date(epochMillis: int)

  /** One news article. The constructor takes its arguments in the source's
      order (title, section, date, author, url); the destructors are the
      getters. A datatype value cannot change once built, as every field of
      the source's class is final. The date is absent where the source holds
      `null`. */
  datatype News = News(
    title: string,
    section: string,
    date: Option<Date>,
    author: string,
    url: string)

  /** Each getter returns the constructor argument in its own position, the
      absent date included; author and url are not swapped. */
  lemma GettersReturnConstructorArguments(
    title: string, section: string, date: Option<Date>, author: string, url: string)
    ensures News(title, section, date, author, url).title == title
    ensures News(title, section, date, author, url).section == section
    ensures News(title, section, date, author, url).date == date
    ensures News(title, section, date, author, url).author == author
    ensures News(title, section, date, author, url).url == url
  {
  }

  /** Two articles are equal exactly when all five getters agree: the record
      holds nothing beyond its five fields. */
  lemma NewsDeterminedByGetters(n: News, m: News)
    ensures n == m <==>
      (n.title == m.title && n.section == m.section && n.date == m.date
       && n.author == m.author && n.url == m.url)
  {
  }
}
